/**
 One device executing sync cycles against the shared remote: its local root, base record and cache change step
 by step, and any step may fail. Every execution is shown to stop after a prefix of the effects of a cycle.
 */
module SyncApply {
  import opened Common
  import opened SyncState
  import opened SyncPlan
  import opened Remote
  import opened SyncCycle
  import Apply

  /** What goes wrong during one execution: failing install primitives, a broken connection, unwritable records. */
  datatype Env = Env(pullFaults: map<SkillId, set<Apply.Prim>>, applyRecordFails: bool, putBudget: nat,
                     baseRecordFails: bool)
  {
    function FaultsFor(ids: seq<SkillId>): (f: seq<set<Apply.Prim>>)
      ensures |f| == |ids|
    {
      seq(|ids|, i requires 0 <= i < |ids| => if ids[i] in pullFaults then pullFaults[ids[i]] else {})
    }
  }

  datatype SyncError =
    | GateClosed | RemoteChanged | StagingFailed | InstallFailed(error: Apply.ApplyError) | RecordFailed | UploadFailed

  /** The primitives an install needs work: only a skill that is there already has to be backed up and removed. */
  predicate CleanFaults(f: set<Apply.Prim>, present: bool) {
    && Apply.CopySource !in f && Apply.RenameTemp !in f
    && (present ==> Apply.CopyBackup !in f && Apply.RemoveTarget !in f)
  }

  /** Nothing that matters fails while this skill is pulled. */
  predicate PullsCleanly(env: Env, local: Skills, id: SkillId) {
    id in env.pullFaults ==> CleanFaults(env.pullFaults[id], id in local)
  }

  // ----- pulling: installing the selected index entries ------------------------------------------------

  function PullItem(idx: Index, id: SkillId): Apply.Item<Content>
    requires id in idx
  {
    Apply.Item(Some(idx[id].content), id, id, true)
  }

  function PullItems(idx: Index, ids: seq<SkillId>): (items: seq<Apply.Item<Content>>)
    requires forall id :: id in ids ==> id in idx
    ensures |items| == |ids|
  {
    if ids == [] then [] else [PullItem(idx, ids[0])] + PullItems(idx, ids[1..])
  }

  ghost predicate Distinct<T>(s: seq<T>) {
    forall i, j :: 0 <= i < j < |s| ==> s[i] != s[j]
  }

  /** The outcome of a pull plan: a prefix of the skills is installed, all of them exactly when nothing fails. */
  ghost predicate InstallsPrefix(o: Apply.Outcome<Content>, local: Skills, idx: Index, ids: seq<SkillId>) {
    && |o.applied| <= |ids|
    && (o.error.None? <==> |o.applied| == |ids|)
    && forall t :: Get(o.disk.nodes, t) ==
                     if Apply.LostTarget(o, t) then None else Get(Install(local, idx, ids[..|o.applied|]), t)
  }

  lemma FailedPullInstallsNothing(d: Apply.Disk<Content>, idx: Index, id: SkillId, rest: seq<SkillId>,
                                  f: set<Apply.Prim>)
    requires id in idx && Apply.ApplyTo(d, PullItem(idx, id), f).1.Err?
    ensures
      var (d1, r) := Apply.ApplyTo(d, PullItem(idx, id), f);
      InstallsPrefix(Apply.Outcome(d1, [], Some(r.error)), d.nodes, idx, [id] + rest)
  {
    hide Apply.ApplyTo, Install;
    forall t
      ensures Get(Install(d.nodes, idx, ([id] + rest)[..0]), t) == Get(d.nodes, t)
    {
      Apply.FailedItemKeepsNodes(d, PullItem(idx, id), f, t);
      InstallAt(d.nodes, idx, ([id] + rest)[..0], t);
    }
    forall t {
      Apply.FailedItemKeepsNodes(d, PullItem(idx, id), f, t);
    }
  }

  lemma OneMorePull(o: Apply.Outcome<Content>, local: Skills, idx: Index, id: SkillId, rest: seq<SkillId>,
                    a: Apply.Applied)
    requires id in idx
    requires InstallsPrefix(o, local[id := idx[id].content], idx, rest)
    ensures InstallsPrefix(o.(applied := [a] + o.applied), local, idx, [id] + rest)
  {
    hide Install;
    var n := |o.applied|;
    assert ([id] + rest)[..n + 1] == [id] + rest[..n];
    forall t
      ensures Get(Install(local[id := idx[id].content], idx, rest[..n]), t) ==
            Get(Install(local, idx, [id] + rest[..n]), t)
    {
      InstallAt(local[id := idx[id].content], idx, rest[..n], t);
      InstallAt(local, idx, [id] + rest[..n], t);
    }
  }

  /** One successful pull: the disk the rest of the plan starts from. */
  lemma PulledItem(d: Apply.Disk<Content>, idx: Index, id: SkillId, f: set<Apply.Prim>)
    requires id in idx && id !in d.temps && id !in d.backups && Apply.ApplyTo(d, PullItem(idx, id), f).1.Ok?
    ensures
      var d1 := Apply.ApplyTo(d, PullItem(idx, id), f).0;
      && d1.nodes == d.nodes[id := idx[id].content] && d1.temps == d.temps
      && forall b :: b in d1.backups && b != id ==> b in d.backups
  {
  }

  /** Running a pull plan installs a prefix of the selected skills. */
  lemma {:induction false} PullPlanInstallsPrefix(d: Apply.Disk<Content>, idx: Index, ids: seq<SkillId>,
                                                  faults: seq<set<Apply.Prim>>)
    requires |faults| == |ids| && Distinct(ids)
    requires forall id :: id in ids ==> id in idx && id !in d.temps && id !in d.backups
    ensures InstallsPrefix(Apply.Run(d, PullItems(idx, ids), faults), d.nodes, idx, ids)
    decreases |ids|
  {
    hide Apply.ApplyTo, InstallsPrefix, Install;
    if ids == [] {
      EmptyPullPlan(d, idx);
      assert faults == [];
    } else {
      var id, rest := ids[0], ids[1..];
      assert ids == [id] + rest;
      assert PullItems(idx, ids)[0] == PullItem(idx, id) && PullItems(idx, ids)[1..] == PullItems(idx, rest);
      var (d1, r) := Apply.ApplyTo(d, PullItem(idx, id), faults[0]);
      if r.Err? {
        FailedPullInstallsNothing(d, idx, id, rest, faults[0]);
      } else {
        PulledItem(d, idx, id, faults[0]);
        assert forall x :: x in rest ==> x in ids && x != id;
        PullPlanInstallsPrefix(d1, idx, rest, faults[1..]);
        OneMorePull(Apply.Run(d1, PullItems(idx, rest), faults[1..]), d.nodes, idx, id, rest, r.value);
      }
    }
  }

  /** A pull plan stops at the first skill whose faults matter. */
  lemma {:induction false} PullPlanStopsAtFault(d: Apply.Disk<Content>, idx: Index, ids: seq<SkillId>,
                                                faults: seq<set<Apply.Prim>>)
    requires |faults| == |ids| && Distinct(ids)
    requires forall id :: id in ids ==> id in idx && id !in d.temps && id !in d.backups
    ensures
      var n := |Apply.Run(d, PullItems(idx, ids), faults).applied|;
      && n <= |ids|
      && (forall i :: 0 <= i < n ==> CleanFaults(faults[i], ids[i] in d.nodes))
      && (n < |ids| ==> !CleanFaults(faults[n], ids[n] in d.nodes))
    decreases |ids|
  {
    hide Apply.ApplyTo, Apply.Run, CleanFaults, PullItems;
    if ids != [] {
      var id, rest := ids[0], ids[1..];
      assert ids == [id] + rest && faults == [faults[0]] + faults[1..];
      FirstPull(d, idx, id, rest, faults[0], faults[1..]);
      if CleanFaults(faults[0], id in d.nodes) {
        var d1 := Apply.ApplyTo(d, PullItem(idx, id), faults[0]).0;
        assert forall x :: x in rest ==> x in ids && x != id;
        PullPlanStopsAtFault(d1, idx, rest, faults[1..]);
        forall i | 0 < i < |ids|
          ensures CleanFaults(faults[i], ids[i] in d.nodes) == CleanFaults(faults[1..][i - 1], rest[i - 1] in d1.nodes)
        {
          assert ids[i] == rest[i - 1] && ids[i] != id;
        }
      }
    } else {
      EmptyPullPlan(d, idx);
      assert faults == [];
    }
  }

  /** The first item of a pull plan: it stops the plan, or the rest runs on what it leaves. */
  lemma FirstPull(d: Apply.Disk<Content>, idx: Index, id: SkillId, rest: seq<SkillId>, f: set<Apply.Prim>,
                  faults: seq<set<Apply.Prim>>)
    requires |faults| == |rest| && forall x :: x in [id] + rest ==> x in idx
    requires id !in d.temps && id !in d.backups
    ensures
      var d1 := Apply.ApplyTo(d, PullItem(idx, id), f).0;
      && |Apply.Run(d, PullItems(idx, [id] + rest), [f] + faults).applied| ==
           (if CleanFaults(f, id in d.nodes) then 1 + |Apply.Run(d1, PullItems(idx, rest), faults).applied| else 0)
      && (CleanFaults(f, id in d.nodes) ==>
            && d1.nodes == d.nodes[id := idx[id].content] && d1.temps == d.temps
            && forall b :: b in d1.backups && b != id ==> b in d.backups)
  {
    hide Apply.ApplyTo, CleanFaults;
    assert ([id] + rest)[1..] == rest && ([f] + faults)[1..] == faults;
    assert PullItems(idx, [id] + rest)[1..] == PullItems(idx, rest);
    PullSucceedsIff(d, idx, id, f);
    if CleanFaults(f, id in d.nodes) {
      PulledItem(d, idx, id, f);
    }
  }

  lemma PullSucceedsIff(d: Apply.Disk<Content>, idx: Index, id: SkillId, f: set<Apply.Prim>)
    requires id in idx && id !in d.temps && id !in d.backups
    ensures PullItem(idx, id).allowed
    ensures Apply.ApplyTo(d, PullItem(idx, id), f).1.Ok? <==> CleanFaults(f, id in d.nodes)
  {
    Apply.ApplyByInputs(d, PullItem(idx, id), f);
  }

  lemma EmptyPullPlan(d: Apply.Disk<Content>, idx: Index)
    ensures InstallsPrefix(Apply.Run(d, PullItems(idx, []), []), d.nodes, idx, [])
  {
    forall t {
      InstallAt(d.nodes, idx, [], t);
    }
  }

  // ----- pushing: the archives of the selected skills, then the whole local index -----------------------

  function ArchivePaths(local: Skills, ids: set<SkillId>): set<Path> {
    set id | id in ids && id in local :: ArchivePath(SHARED_SOURCE, id, local[id])
  }

  /** Distinct ids have distinct archives. */
  lemma {:induction false} CountArchivePaths(local: Skills, ids: seq<SkillId>)
    requires Distinct(ids) && forall id :: id in ids ==> id in local
    ensures |ArchivePaths(local, set id | id in ids)| == |ids|
    decreases |ids|
  {
    if ids != [] {
      var n := |ids| - 1;
      var front, id := ids[..n], ids[n];
      CountArchivePaths(local, front);
      assert id !in front && forall x :: x in ids <==> x in front || x == id;
      var path := ArchivePath(SHARED_SOURCE, id, local[id]);
      assert ArchivePaths(local, set x | x in ids) == ArchivePaths(local, set x | x in front) + {path};
      assert path !in ArchivePaths(local, set x | x in front);
    }
  }

  lemma ListOf(ids: set<SkillId>) returns (list: seq<SkillId>)
    ensures ListsSet(list, ids)
  {
    if ids == {} {
      list := [];
    } else {
      var id :| id in ids;
      var rest := ListOf(ids - {id});
      list := [id] + rest;
    }
  }

  lemma EmptyOrHas(list: seq<SkillId>)
    ensures list == [] || exists id :: id in list
  {
    if list != [] {
      assert list[0] in list;
    }
  }

  /** Orders the pushed ids as their archives were uploaded. */
  lemma UploadOrder(local: Skills, ids: set<SkillId>, uploaded: seq<Path>) returns (puts: seq<SkillId>)
    requires ids <= local.Keys && Distinct(uploaded)
    requires forall p :: p in uploaded ==> p in ArchivePaths(local, ids)
    ensures ListsSet(puts, ids) && |uploaded| <= |puts|
    ensures forall i :: 0 <= i < |uploaded| ==>
      puts[i] in local && uploaded[i] == ArchivePath(SHARED_SOURCE, puts[i], local[puts[i]])
    ensures (forall p :: p in ArchivePaths(local, ids) ==> p in uploaded) ==> |puts| == |uploaded|
  {
    forall i | 0 <= i < |uploaded|
      ensures uploaded[i].ArchivePath? && uploaded[i].id in ids
      ensures uploaded[i] == ArchivePath(SHARED_SOURCE, uploaded[i].id, local[uploaded[i].id])
    {
      assert uploaded[i] in ArchivePaths(local, ids);
    }
    var done := seq(|uploaded|, i requires 0 <= i < |uploaded| => uploaded[i].id);
    forall i, j | 0 <= i < j < |done|
      ensures done[i] != done[j]
    {
      assert uploaded[i] != uploaded[j];
    }
    var rest := ListOf(ids - set id | id in done);
    assert forall id :: id in rest ==> id !in done;
    puts := done + rest;
    assert forall i :: 0 <= i < |rest| ==> rest[i] in rest;
    assert forall i :: 0 <= i < |done| ==> done[i] in done;
    if forall p :: p in ArchivePaths(local, ids) ==> p in uploaded {
      forall id | id in ids
        ensures id in done
      {
        assert ArchivePath(SHARED_SOURCE, id, local[id]) in uploaded;
        var i :| 0 <= i < |uploaded| && uploaded[i] == ArchivePath(SHARED_SOURCE, id, local[id]);
        assert done[i] == id;
      }
      EmptyOrHas(rest);
    }
  }

  lemma PublishedArchiveLookup(local: Skills, ids: seq<SkillId>, uploaded: seq<Path>, p: Path)
    requires |ids| == |uploaded|
    requires forall i :: 0 <= i < |ids| ==>
      ids[i] in local && uploaded[i] == ArchivePath(SHARED_SOURCE, ids[i], local[ids[i]])
    ensures Get(PublishedArchives(local, ids), p) == if p in uploaded then Some(ArchiveBlob(p.content)) else None
    ensures p in uploaded ==> p.ArchivePath?
  {
    if p in uploaded {
      var i :| 0 <= i < |uploaded| && uploaded[i] == p;
      assert ids[i] in ids;
    }
  }

  // ----- splitting a plan -------------------------------------------------------------------------------

  predicate Unsupported(item: PlanItem, entry: Option<Entry>, target: Target) {
    && item.allowed
    && (|| item.action in {DeleteLocal, DeprecateRemote}
        || (IsPull(item.action) && (entry.None? || !Installable(entry.value.content, target))))
  }

  function UnsupportedIds(items: map<SkillId, PlanItem>, idx: Index, target: Target): set<SkillId> {
    set id | id in items && Unsupported(items[id], Get(idx, id), target)
  }

  lemma ListOneMore(list: seq<SkillId>, ids: set<SkillId>, id: SkillId)
    requires ListsSet(list, ids) && id !in ids
    ensures ListsSet(list + [id], ids + {id})
  {
  }

  const PULL_ACTIONS := {PullSkill, PullNew}
  const PUSH_ACTIONS := {PushSkill, PushNew}

  function WithAction(items: map<SkillId, PlanItem>, actions: set<PlanAction>): set<SkillId> {
    set id | id in items && items[id].action in actions
  }

  /** Lists the skills of a plan with one of the given actions. */
  method ActionSkillIds(items: map<SkillId, PlanItem>, actions: set<PlanAction>) returns (ids: seq<SkillId>)
    ensures ListsSet(ids, WithAction(items, actions))
  {
    ids := [];
    ghost var listed: set<SkillId> := {};
    assert ListsSet(ids, listed);
    hide ListsSet;
    var remaining := items.Keys;
    while remaining != {}
      invariant remaining <= items.Keys
      invariant forall id :: id in listed <==> id in items && id !in remaining && items[id].action in actions
      invariant ListsSet(ids, listed)
    {
      var id :| id in remaining;
      remaining := remaining - {id};
      if items[id].action in actions {
        ListOneMore(ids, listed, id);
        ids, listed := ids + [id], listed + {id};
      }
    }
    assert listed == WithAction(items, actions);
  }

  /** Counts the planned items that cannot be executed. */
  method CountUnsupported(items: map<SkillId, PlanItem>, idx: Index, target: Target) returns (unsupported: nat)
    ensures unsupported == |UnsupportedIds(items, idx, target)|
  {
    hide Unsupported;
    unsupported := 0;
    ghost var found: set<SkillId> := {};
    var remaining := items.Keys;
    while remaining != {}
      invariant remaining <= items.Keys
      invariant forall id :: id in found <==>
        id in items && id !in remaining && Unsupported(items[id], Get(idx, id), target)
      invariant unsupported == |found|
    {
      var id :| id in remaining;
      remaining := remaining - {id};
      if Unsupported(items[id], Get(idx, id), target) {
        found := found + {id};
        unsupported := unsupported + 1;
      }
    }
    assert found == UnsupportedIds(items, idx, target);
  }

  ghost predicate PlansAll(cfg: Config, m: Machine, idx: Index, items: map<SkillId, PlanItem>) {
    && items.Keys == Ids(m.base, m.local, idx)
    && forall id :: id in items ==> items[id] == PlanAt(cfg, m.base, m.local, idx, id)
  }

  /** The gate's counters are zero exactly when the cycle is executable. */
  lemma CountersDecideGate(cfg: Config, m: Machine, idx: Index, items: map<SkillId, PlanItem>)
    requires PlansAll(cfg, m, idx, items)
    ensures StoppedIds(items) == {} && UnsupportedIds(items, idx, cfg.target) == {} <==> Executable(cfg, m, idx)
  {
    hide PlanAt, Installable, IsPull;
    forall id
      ensures id in StoppedIds(items) || id in UnsupportedIds(items, idx, cfg.target) <==> !MayRun(cfg, m, idx, id)
    {
      if id !in items {
        UnknownIdIsNoop(cfg, m, idx, id);
        NoopIsNoPull();
      }
    }
  }

  lemma NoopIsNoPull()
    ensures !IsPull(Noop)
  {
  }

  lemma PlannedSets(cfg: Config, m: Machine, idx: Index, items: map<SkillId, PlanItem>)
    requires PlansAll(cfg, m, idx, items)
    ensures WithAction(items, PULL_ACTIONS) == PullIds(cfg, m, idx)
    ensures WithAction(items, PUSH_ACTIONS) == PushIds(cfg, m, idx)
  {
  }
}
