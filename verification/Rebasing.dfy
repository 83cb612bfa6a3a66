/**
 Approved pushes and central restores record the whole remote index as the next base, also for skills they did
 not touch. How that changes the classification of those skills.
 */
module Rebasing {
  import opened Common
  import opened SyncState
  import opened SyncPlan
  import opened Remote
  import opened SyncCycle
  import opened SyncApply
  import opened SyncDevice
  import opened ApprovedPush
  import opened SkillIds
  import Apply
  import C = Cluster

  /** The status of an untouched skill after its base became its remote hash. */
  function Rebased(s: Status, local: Option<Content>, remote: Option<Content>): Status {
    match s
    case Pull => Push
    case RemoteNew => LocalDeleted
    case RemoteDeleted => LocalNew
    case Conflict => if local.None? then LocalDeleted else if remote.None? then LocalNew else Push
    case AlreadyConverged => if remote.Some? then Unchanged else SameWithoutBase
    case SameWithoutBase => if remote.Some? then Unchanged else SameWithoutBase
    case DeletedBoth => SameWithoutBase
    case _ => s
  }

  /** The re-basing table, and which statuses survive it. */
  lemma RebasingTable(base: Option<Content>, local: Option<Content>, remote: Option<Content>)
    ensures ClassifyHashes(remote, local, remote) == Rebased(ClassifyHashes(base, local, remote), local, remote)
    ensures ClassifyHashes(remote, local, remote) == ClassifyHashes(base, local, remote) <==>
              || ClassifyHashes(base, local, remote) in {Unchanged, Push, LocalNew, LocalDeleted}
              || (base.None? && local.None? && remote.None?)
  {
  }

  /** A re-based skill is never pulled, and never conflicts: every difference counts as a local change. */
  lemma RebasingForgetsRemoteChanges(base: Option<Content>, local: Option<Content>, remote: Option<Content>)
    ensures
      var s := ClassifyHashes(remote, local, remote);
      && s !in {Pull, RemoteNew, RemoteDeleted, Conflict}
      && (local != remote <==> s in {Push, LocalNew, LocalDeleted})
  {
  }

  /** What a completed approved push leaves on the device and the remote. */
  lemma AfterApproval(c: C.Cluster, s: C.Step)
    requires C.Enabled(c, s) && s.Approve? && s.k > |s.ids|
    ensures
      var d := c.devices[s.device];
      var index := C.ApprovedIndex(d, s.ids);
      && s.device in C.Next(c, s).devices
      && C.Next(c, s).devices[s.device] == d.(base := Hashes(index), seen := d.seen + C.Pairs(Hashes(index)))
      && IndexOf(C.Next(c, s).files) == index
  {
    hide C.ApprovedIndex, Hashes, PublishedArchives, C.RemoteMatchesCache;
  }

  lemma ApprovedIndexAt(d: C.Device, ids: seq<SkillId>, id: SkillId)
    requires forall x :: x in ids ==> x in d.local
    ensures Get(C.ApprovedIndex(d, ids), id) == if id in ids then Some(LocalEntry(d.local[id])) else Get(d.cache, id)
    ensures Get(Hashes(C.ApprovedIndex(d, ids)), id) == ContentOf(Get(C.ApprovedIndex(d, ids), id))
  {
  }

  /** A completed approved push of `ids`: approved skills are unchanged, the others follow the table. */
  lemma ApprovedPushRebases(c: C.Cluster, s: C.Step, id: SkillId)
    requires C.Enabled(c, s) && s.Approve? && s.k > |s.ids|
    requires id in c.devices[s.device].cache ==> !c.devices[s.device].cache[id].deprecated
    ensures
      var d, d' := c.devices[s.device], C.Next(c, s).devices[s.device];
      var before := Classify(Get(d.base, id), Get(d.local, id), Get(d.cache, id));
      var after := Classify(Get(d'.base, id), Get(d'.local, id), Get(IndexOf(C.Next(c, s).files), id));
      after == if id in s.ids then Unchanged else Rebased(before, Get(d.local, id), ContentOf(Get(d.cache, id)))
  {
    hide Rebased, ClassifyHashes, C.Next, C.ApprovedIndex, C.RemoteMatchesCache, Hashes;
    var d := c.devices[s.device];
    AfterApproval(c, s);
    ApprovedIndexAt(d, s.ids, id);
    RebasingTable(Get(d.base, id), Get(d.local, id), ContentOf(Get(d.cache, id)));
    if id in s.ids {
      UnchangedWhenEqual(Some(d.local[id]));
    }
  }

  lemma UnchangedWhenEqual(x: Option<Content>)
    requires x.Some?
    ensures ClassifyHashes(x, x, x) == Unchanged
  {
  }

  /**
   Why approvals are excluded from the no-lost-update theorem: a remote version the device never held and was
   about to pull becomes its base, so its next cycle plans to push the older local version over it.
   */
  lemma PendingPullBecomesPush(c: C.Cluster, s: C.Step, id: SkillId)
    requires C.Enabled(c, s) && s.Approve? && s.k > |s.ids| && id !in s.ids
    requires
      var d := c.devices[s.device];
      && id in d.cache && !d.cache[id].deprecated
      && Classify(Get(d.base, id), Get(d.local, id), Get(d.cache, id)) == Pull
      && (id, d.cache[id].content) !in d.held
      && d.cfg.policy == PushPull && id !in d.cfg.overrides
    ensures
      var c' := C.Next(c, s);
      var d' := c'.devices[s.device];
      && ToPush(d'.cfg, C.MachineOf(d', c'.files), IndexOf(c'.files), id)
      && C.RemoteContent(c', id) == Some(c.devices[s.device].cache[id].content)
      && !C.Traced(d')
  {
    hide ClassifyHashes, C.Next, C.ApprovedIndex, C.RemoteMatchesCache, Hashes;
    var d := c.devices[s.device];
    AfterApproval(c, s);
    var d' := C.Next(c, s).devices[s.device];
    ApprovedIndexAt(d, s.ids, id);
    ApprovedPushRebases(c, s, id);
    assert Get(d'.base, id) == Some(d.cache[id].content);
    assert (id, d'.base[id]) !in d'.held;
  }

  // ----- restoring skills from the central snapshot ------------------------------------------------------

  datatype RestoreError =
    | NothingSelected | NotInSnapshot | NotStaged | NotRestorable | InstallStopped(error: Apply.ApplyError)
    | RecordNotWritten

  /** The first occurrence of every id in a list. */
  function FirstOccurrences(ids: seq<SkillId>): seq<SkillId> {
    if ids == [] then []
    else
      var earlier, last := FirstOccurrences(ids[..|ids| - 1]), ids[|ids| - 1];
      if last in earlier then earlier else earlier + [last]
  }

  method NormalizeSkillIds(raw: seq<string>) returns (r: Option<seq<SkillId>>)
    ensures r == if FirstOccurrences(GivenIds(raw)) == [] then None else Some(FirstOccurrences(GivenIds(raw)))
    ensures r.Some? ==> Distinct(r.value) && forall id :: id in r.value <==> id in GivenIds(raw)
  {
    hide StripBlanks;
    var result: seq<SkillId>, seen: set<SkillId> := [], {};
    for i := 0 to |raw|
      invariant result == FirstOccurrences(GivenIds(raw[..i]))
      invariant Distinct(result) && forall id :: id in seen <==> id in result
      invariant forall id :: id in result <==> id in GivenIds(raw[..i])
    {
      assert raw[..i + 1] == raw[..i] + [raw[i]] && raw[..i + 1][..i] == raw[..i];
      ghost var earlier := GivenIds(raw[..i]);
      var id := StripBlanks(raw[i]);
      assert (earlier + [id])[..|earlier|] == earlier;
      if id != "" && id !in seen {
        result, seen := result + [id], seen + {id};
      }
    }
    assert raw[..|raw|] == raw;
    return if result == [] then None else Some(result);
  }

  /**
   Restores the selected skills from the cached snapshot: all of them must be listed, the snapshot must stage and
   each skill fit the target, else nothing changes; a failing install leaves the first `n` of them. On success exactly
   these skills hold the central content. When a place for it is given, a record is written that holds every hash of
   the snapshot and can serve as the next base.
   */
  method RestoreFromCentral(d: Device, raw: seq<string>, target: Target, yes: bool, recordWanted: bool,
                            stages: bool, env: Env)
    returns (r: Result<Option<Skills>, RestoreError>, ghost n: nat)
    modifies d.root
    ensures
      var ids := FirstOccurrences(GivenIds(raw));
      var idx := d.CachedIndex();
      && (r == Err(NothingSelected) <==> ids == [])
      && (r == Err(NotInSnapshot) <==> ids != [] && exists id :: id in ids && id !in idx)
      && (r == Err(NotStaged) <==> ids != [] && (forall id :: id in ids ==> id in idx) && !stages)
      && (r == Err(NotRestorable) <==>
            && ids != [] && (forall id :: id in ids ==> id in idx) && stages
            && exists id :: id in ids && id in idx && !Restorable(idx[id].content, target))
      && (!yes || (r.Err? && r.error in {NothingSelected, NotInSnapshot, NotStaged, NotRestorable}) ==>
            d.root.nodes == old(d.root.nodes))
      && (r.Ok? && yes ==> d.root.nodes == Install(old(d.root.nodes), idx, ids))
      && (r.Ok? ==> r.value == if yes && recordWanted then Some(Hashes(idx)) else None)
      && (r == Err(RecordNotWritten) ==> d.root.nodes == Install(old(d.root.nodes), idx, ids))
    ensures
      var ids := FirstOccurrences(GivenIds(raw));
      var idx := d.CachedIndex();
      var restorable :=
        ids != [] && stages && forall id :: id in ids ==> id in idx && Restorable(idx[id].content, target);
      var clean := forall id :: id in ids ==> PullsCleanly(env, old(d.root.nodes), id);
      && (r.Err? && r.error.InstallStopped? <==> restorable && yes && !clean)
      && (r == Err(RecordNotWritten) <==>
            restorable && yes && clean && (env.applyRecordFails || (recordWanted && env.baseRecordFails)))
      && (r.Ok? <==>
            && restorable
            && (yes ==> clean && !env.applyRecordFails && (recordWanted ==> !env.baseRecordFails)))
    ensures r.Err? && r.error.InstallStopped? ==>
              var ids := FirstOccurrences(GivenIds(raw));
              && n < |ids| && !PullsCleanly(env, old(d.root.nodes), ids[n])
              && (forall i :: 0 <= i < n ==> PullsCleanly(env, old(d.root.nodes), ids[i]))
              && forall id :: Get(d.root.nodes, id) ==
                   if Lost(Some(r.error.error), id) then None
                   else Get(Install(old(d.root.nodes), d.CachedIndex(), ids[..n]), id)
  {
    hide FirstOccurrences, GivenIds, Restorable, PullsCleanly, Install;
    var normalized := NormalizeSkillIds(raw);
    n := 0;
    if normalized.None? { return Err(NothingSelected), n; }
    var ids := normalized.value;
    var idx := d.CachedIndex();
    for i := 0 to |ids|
      invariant forall j :: 0 <= j < i ==> ids[j] in idx
    {
      if ids[i] !in idx { assert ids[i] in ids; return Err(NotInSnapshot), n; }
    }
    if !stages { return Err(NotStaged), n; }
    for i := 0 to |ids|
      invariant forall j :: 0 <= j < i ==> Restorable(idx[ids[j]].content, target)
    {
      if !Restorable(idx[ids[i]].content, target) { assert ids[i] in ids; return Err(NotRestorable), n; }
    }
    if !yes { return Ok(None), n; }
    var error;
    error, n := d.PullSkills(ids, env);
    if error.Some? { return Err(InstallStopped(error.value)), n; }
    assert ids[..n] == ids;
    SameLookups(d.root.nodes, Install(old(d.root.nodes), idx, ids));
    if env.applyRecordFails || (recordWanted && env.baseRecordFails) { return Err(RecordNotWritten), n; }
    return Ok(if recordWanted then Some(Hashes(idx)) else None), n;
  }

  /** A project target needs a project root, which a restore never passes. */
  predicate Restorable(c: Content, target: Target) {
    target != CodexProject && c.scope in AllowedScopes(target)
    && (target == MixedScopeRoot || TargetsTool(c.targets, target))
  }

  /** A restore takes what a cycle would install, but nothing into a project. */
  lemma RestorableIffInstallable(c: Content, target: Target)
    ensures Restorable(c, target) <==> target != CodexProject && Installable(c, target)
  {
  }

  /** A restore used as the next base: restored skills are unchanged, the others follow the table. */
  lemma RestoreRebases(base: Skills, local: Skills, idx: Index, ids: seq<SkillId>, id: SkillId)
    requires forall x :: x in ids ==> x in idx
    requires id in idx ==> !idx[id].deprecated
    ensures
      var before := Classify(Get(base, id), Get(local, id), Get(idx, id));
      var after := Classify(Get(Hashes(idx), id), Get(Install(local, idx, ids), id), Get(idx, id));
      after == if id in ids then Unchanged else Rebased(before, Get(local, id), ContentOf(Get(idx, id)))
  {
    hide Rebased, ClassifyHashes, Install;
    RebasingTable(Get(base, id), Get(local, id), ContentOf(Get(idx, id)));
    InstallAt(local, idx, ids, id);
    assert Get(Hashes(idx), id) == ContentOf(Get(idx, id));
    if id in ids {
      UnchangedWhenEqual(Some(idx[id].content));
    }
  }
}
