/** The device object: executing a plan, running whole cycles, and the daemon loop around them. */
module SyncDevice {
  import opened Common
  import opened SyncState
  import opened SyncPlan
  import opened Remote
  import opened SyncCycle
  import opened SyncApply
  import Apply

  /** The upload stopped after `n` archive puts, or completed with the index put. */
  ghost predicate Pushed(before: Files, after: Files, local: Skills, puts: seq<SkillId>, n: nat, complete: bool) {
    && n <= |puts|
    && after == before + PublishedArchives(local, puts[..n]) +
      (if complete then map[IndexPath := IndexBlob(PublishedIndex(local))] else map[])
    && (complete ==> n == |puts|)
  }

  lemma UploadIsPush(before: Files, after: Files, local: Skills, puts: seq<SkillId>, uploaded: seq<Path>,
                     complete: bool)
    requires |uploaded| <= |puts| && (complete ==> |uploaded| == |puts|)
    requires forall i :: 0 <= i < |uploaded| ==>
      puts[i] in local && uploaded[i] == ArchivePath(SHARED_SOURCE, puts[i], local[puts[i]])
    requires forall p :: p != IndexPath ==> Get(after, p) == AfterUpload(before, uploaded, p)
    requires Get(after, IndexPath) ==
          if complete then Some(IndexBlob(PublishedIndex(local))) else Get(before, IndexPath)
    ensures Pushed(before, after, local, puts, |uploaded|, complete)
  {
    var n := |uploaded|;
    var last: Files := if complete then map[IndexPath := IndexBlob(PublishedIndex(local))] else map[];
    var expected := before + PublishedArchives(local, puts[..n]) + last;
    forall p
      ensures Get(after, p) == Get(expected, p)
    {
      PublishedArchiveLookup(local, puts[..n], uploaded, p);
      ThreeLayers(before, PublishedArchives(local, puts[..n]), last, p);
    }
    SameLookups(after, expected);
  }

  lemma ThreeLayers(a: Files, b: Files, c: Files, p: Path)
    ensures Get(a + b + c, p) == if p in c then Get(c, p) else if p in b then Get(b, p) else Get(a, p)
  {
  }

  predicate Lost(error: Option<Apply.ApplyError>, id: SkillId) {
    error == Some(Apply.PrimFailed(Apply.CopyBack, id))
  }

  /** `local` and `files` are those of a cycle stopped after `k` effects, but for a skill lost to a failed recovery. */
  ghost predicate StoppedAt(m: Machine, idx: Index, tr: Trace, k: nat, local: Skills, files: Files,
                            error: Option<Apply.ApplyError>) {
    && files == CrashAt(m, idx, tr, k).files
    && forall id :: Get(local, id) == if Lost(error, id) then None else Get(CrashAt(m, idx, tr, k).local, id)
  }

  lemma StoppedInPulls(m: Machine, idx: Index, tr: Trace, n: nat, local: Skills, error: Option<Apply.ApplyError>)
    requires n <= |tr.installs|
    requires forall id ::
               Get(local, id) == if Lost(error, id) then None else Get(Install(m.local, idx, tr.installs[..n]), id)
    ensures StoppedAt(m, idx, tr, n, local, m.files, error)
  {
    var c := CrashAt(m, idx, tr, n);
    assert Take(tr.installs, n) == tr.installs[..n];
    assert PublishedArchives(Install(m.local, idx, tr.installs), []) == map[];
    assert c.files == m.files;
  }

  lemma StoppedInPushes(m: Machine, idx: Index, tr: Trace, n: nat, complete: bool, k: nat, local: Skills, files: Files)
    requires local == Install(m.local, idx, tr.installs)
    requires tr.puts != [] && Pushed(m.files, files, local, tr.puts, n, complete)
    requires if complete then k > |tr.installs| + |tr.puts| else k == |tr.installs| + n
    ensures StoppedAt(m, idx, tr, k, local, files, None)
  {
    hide Install, PublishedArchives, PublishedIndex;
    var c := CrashAt(m, idx, tr, k);
    assert Take(tr.installs, k) == tr.installs;
    assert Take(tr.puts, k - |tr.installs|) == tr.puts[..n];
    assert c.local == local && c.files == files;
  }

  function IdSet(ids: seq<SkillId>): set<SkillId> {
    set id | id in ids
  }

  class Device {
    const root: Apply.TargetRoot<Content>
    const remote: RemoteStore
    var base: Skills
    var cache: Files

    constructor (remote: RemoteStore, local: Skills)
      ensures fresh(root) && this.remote == remote
      ensures Before() == Machine(local, map[], remote.files) && cache == map[]
    {
      root := new Apply.TargetRoot(local);
      this.remote := remote;
      base := map[];
      cache := map[];
    }

    ghost predicate Valid()
      reads this, remote
    {
      remote.Valid() && WellKept(cache)
    }

    /** The machine a cycle starting now would work on. */
    function Before(): Machine
      reads this, root, remote
    {
      Machine(root.nodes, base, remote.files)
    }

    function CachedIndex(): Index
      reads this
    {
      IndexOf(cache)
    }

    /** Installs the listed entries of the cached index, in order, up to the first one that cannot be installed. */
    method PullSkills(ids: seq<SkillId>, env: Env) returns (error: Option<Apply.ApplyError>, ghost n: nat)
      requires Distinct(ids) && forall id :: id in ids ==> id in CachedIndex()
      modifies root
      ensures n <= |ids| && (error.None? <==> n == |ids|)
      ensures forall id :: Get(root.nodes, id) ==
                if Lost(error, id) then None else Get(Install(old(root.nodes), CachedIndex(), ids[..n]), id)
      ensures forall i :: 0 <= i < n ==> PullsCleanly(env, old(root.nodes), ids[i])
      ensures n < |ids| ==> !PullsCleanly(env, old(root.nodes), ids[n])
    {
      hide PullItems;
      root.BeginApply();
      var applied;
      applied, error := root.ExecuteApplyPlan(PullItems(CachedIndex(), ids), env.FaultsFor(ids));
      PullPlanInstallsPrefix(Apply.Disk(old(root.nodes), map[], map[]), CachedIndex(), ids, env.FaultsFor(ids));
      PullPlanStopsAtFault(Apply.Disk(old(root.nodes), map[], map[]), CachedIndex(), ids, env.FaultsFor(ids));
      n := |applied|;
    }

    /**
     Uploads the archives of the listed skills, then an index rebuilt from the whole local root; complete if and only
     if the connection lasts for all of them.
     */
    method PushSkills(ids: seq<SkillId>, budget: nat) returns (complete: bool, ghost puts: seq<SkillId>, ghost n: nat)
      requires Valid() && Distinct(ids) && forall id :: id in ids ==> id in root.nodes
      modifies remote
      ensures Valid() && ListsSet(puts, IdSet(ids))
      ensures Pushed(old(remote.files), remote.files, root.nodes, puts, n, complete)
      ensures complete <==> |ids| < budget
      ensures n == if complete then |ids| else budget
      ensures old(remote.Intact()) && !complete ==> remote.Intact()
      ensures old(remote.Intact()) && complete ==>
            (remote.Intact() <==> Closed(PublishedIndex(root.nodes), remote.files))
    {
      var local := root.nodes;
      var selected := ArchivePaths(local, IdSet(ids));
      var uploaded;
      uploaded, complete := remote.UploadSnapshot(ArchivePaths(local, local.Keys), PublishedIndex(local), selected,
        false, budget);
      assert ArchivePaths(local, local.Keys) * selected == selected;
      CountArchivePaths(local, ids);
      assert Needed(selected, false, old(remote.files)) == selected;
      puts := UploadOrder(local, IdSet(ids), uploaded);
      n := |uploaded|;
      UploadIsPush(old(remote.files), remote.files, local, puts, uploaded, complete);
    }

    /** Plans against the cached index; refuses when the gate is closed or, before a push, the cache is outdated. */
    method DecideActions(cfg: Config) returns (refusal: Option<SyncError>, pulls: seq<SkillId>, pushes: seq<SkillId>)
      requires Valid()
      ensures refusal == Some(GateClosed) <==> !Executable(cfg, Before(), CachedIndex())
      ensures refusal == Some(RemoteChanged) <==>
                Executable(cfg, Before(), CachedIndex()) && PushIds(cfg, Before(), CachedIndex()) != {}
                  && !RemoteMatchesCache()
      ensures refusal.Some? ==> refusal.value in {GateClosed, RemoteChanged}
      ensures refusal.None? ==>
                && ListsSet(pulls, PullIds(cfg, Before(), CachedIndex()))
                && ListsSet(pushes, PushIds(cfg, Before(), CachedIndex()))
                && (forall id :: id in pulls ==> id in CachedIndex())
                && (forall id :: id in pushes ==> id in root.nodes)
    {
      pulls, pushes := [], [];
      var plan := BuildSyncPlan(cfg, base, root.nodes, CachedIndex());
      var unsupported := CountUnsupported(plan.items, CachedIndex(), cfg.target);
      CountersDecideGate(cfg, Before(), CachedIndex(), plan.items);
      if plan.blocked != 0 || unsupported != 0 { return Some(GateClosed), pulls, pushes; }
      pulls := ActionSkillIds(plan.items, PULL_ACTIONS);
      pushes := ActionSkillIds(plan.items, PUSH_ACTIONS);
      PlannedSets(cfg, Before(), CachedIndex(), plan.items);
      ExecutableIds(cfg, Before(), CachedIndex());
      assert pushes != [] ==> pushes[0] in PushIds(cfg, Before(), CachedIndex());
      refusal := if pushes != [] && !RemoteMatchesCache() then Some(RemoteChanged) else None;
    }

    /** The remote index has the content hashes of the cached one; without an index there is nothing to compare. */
    predicate RemoteMatchesCache(): (matches: bool)
      reads this, remote
      ensures matches <==> IndexPath in cache && HoldsContents(remote.files, CachedIndex())
    {
      EqualHashesIff(IndexOf(remote.files), CachedIndex());
      IndexPath in cache && IndexPath in remote.files && Hashes(IndexOf(remote.files)) == Hashes(CachedIndex())
    }

    /** Stages the cached snapshot, installs the pulled skills from it and writes the record of that. */
    method RunPulls(pulls: seq<SkillId>, env: Env) returns (failure: Option<SyncError>, ghost n: nat)
      requires Distinct(pulls) && forall id :: id in pulls ==> id in CachedIndex()
      modifies root
      ensures PullsEndAs(env, old(root.nodes), Closed(CachedIndex(), cache), pulls, failure, n)
      ensures forall id :: Get(root.nodes, id) ==
                if Lost(InstallErrorOf(ResultOf(failure)), id) then None
                else Get(Install(old(root.nodes), CachedIndex(), pulls[..n]), id)
    {
      hide Closed, Install;
      n := 0;
      forall id {
        InstallAt(root.nodes, CachedIndex(), pulls[..0], id);
      }
      if pulls == [] { return None, 0; }
      if !Closed(CachedIndex(), cache) { return Some(StagingFailed), 0; }
      var error;
      error, n := PullSkills(pulls, env);
      if error.Some? { return Some(InstallFailed(error.value)), n; }
      return if env.applyRecordFails then Some(RecordFailed) else None, n;
    }

    /** Publishes the pushed skills and writes the record of that; `j` is the number of its effects. */
    method RunPushes(pushes: seq<SkillId>, env: Env)
      returns (r: Result<Option<Skills>, SyncError>, ghost puts: seq<SkillId>, ghost j: nat)
      requires Valid() && Distinct(pushes) && pushes != [] && forall id :: id in pushes ==> id in root.nodes
      modifies remote
      ensures Valid() && ListsSet(puts, IdSet(pushes)) && |puts| == |pushes|
      ensures r == if env.putBudget <= |pushes| then Err(UploadFailed)
                   else if env.baseRecordFails then Err(RecordFailed) else Ok(Some(root.nodes))
      ensures j == if r == Err(UploadFailed) then env.putBudget else if r.Err? then |puts| + 1 else |puts| + 2
      ensures Pushed(old(remote.files), remote.files, root.nodes, puts, if r == Err(UploadFailed) then j else |puts|,
                     r != Err(UploadFailed))
      ensures old(remote.Intact()) ==>
                (remote.Intact() <==> r == Err(UploadFailed) || Closed(PublishedIndex(root.nodes), remote.files))
    {
      hide Pushed, Closed, PublishedIndex;
      var complete;
      complete, puts, j := PushSkills(pushes, env.putBudget);
      SameLength(puts, pushes);
      if !complete { return Err(UploadFailed), puts, j; }
      if env.baseRecordFails { return Err(RecordFailed), puts, j + 1; }
      return Ok(Some(root.nodes)), puts, j + 2;
    }

    /**
     The effects of an admitted plan: staging, the installs and their record, the pushes and theirs. How it ends, and
     after how many effects, is decided by the faults, the connection and whether the cache can be staged.
     */
    method RunEffects(pulls: seq<SkillId>, pushes: seq<SkillId>, env: Env)
      returns (r: Result<Option<Skills>, SyncError>, ghost tr: Trace, ghost k: nat)
      requires Valid() && Distinct(pulls) && Distinct(pushes)
      requires (forall id :: id in pulls ==> id in CachedIndex()) && (forall id :: id in pushes ==> id in root.nodes)
      modifies root, remote
      ensures Valid() && !Refused(r)
      ensures tr.installs == pulls && ListsSet(tr.puts, IdSet(pushes))
      ensures Ran(old(Before()), CachedIndex(), tr, k, r, root.nodes, remote.files)
      ensures EndsAs(env, old(root.nodes), Closed(CachedIndex(), cache), pulls, IdSet(pushes), r, k)
      ensures pushes == [] ==> remote.trace == old(remote.trace)
      ensures old(remote.Intact()) ==>
                (remote.Intact() <==> !IndexWritten(tr, k) || Closed(PublishedIndex(root.nodes), remote.files))
    {
      hide CrashAt, Install, Closed, PublishedIndex, PullsEndAs, EndsAs, StoppedAt;
      ghost var m := Before();
      ghost var idx := CachedIndex();
      tr := Trace(pulls, pushes);
      CountIds(pushes);
      var failure, n := RunPulls(pulls, env);
      PullsDecide(env, m.local, Closed(idx, cache), pulls, failure, n);
      StoppedInPulls(m, idx, tr, n, root.nodes, InstallErrorOf(ResultOf(failure)));
      if failure.Some? { return Err(failure.value), tr, n; }
      assert pulls[..n] == pulls;
      SameLookups(root.nodes, Install(m.local, idx, pulls));
      if pushes == [] {
        OnlyBaseRemains(m, idx, tr);
        SameStop(m, idx, tr, n, tr.Total(), root.nodes, remote.files);
        return Ok(if pulls == [] then None else Some(Install(map[], CachedIndex(), pulls))), tr, tr.Total();
      }
      PushedSurviveInstall(m.local, idx, pulls, pushes);
      ghost var puts, j;
      r, puts, j := RunPushes(pushes, env);
      tr, k := Trace(pulls, puts), |pulls| + j;
      StoppedInPushes(m, idx, tr, if r == Err(UploadFailed) then j else |puts|, r != Err(UploadFailed), k, root.nodes,
        remote.files);
    }

    /**
     Executes the plan of the cached index. Nothing happens unless the gate is open and, before a push, the remote
     still holds the cached hashes; otherwise the execution is a cycle that stops after `k` of its effects, and it
     succeeds if and only if nothing it needs fails. A successful one returns the record to use as the next base.
     */
    method ExecuteSyncApply(cfg: Config, env: Env)
      returns (r: Result<Option<Skills>, SyncError>, ghost tr: Trace, ghost k: nat)
      requires Valid()
      modifies root, remote
      ensures Valid()
      ensures r == Err(GateClosed) <==> !Executable(cfg, old(Before()), CachedIndex())
      ensures r == Err(RemoteChanged) <==>
                && Executable(cfg, old(Before()), CachedIndex()) && PushIds(cfg, old(Before()), CachedIndex()) != {}
                && !old(RemoteMatchesCache())
      ensures Refused(r) ==> Before() == old(Before()) && remote.trace == old(remote.trace)
      ensures r.Ok? <==>
                && Executable(cfg, old(Before()), CachedIndex())
                && (PushIds(cfg, old(Before()), CachedIndex()) != {} ==> old(RemoteMatchesCache()))
                && NothingFails(env, old(root.nodes), Closed(CachedIndex(), cache),
                                PullIds(cfg, old(Before()), CachedIndex()), PushIds(cfg, old(Before()), CachedIndex()))
      ensures !Refused(r) ==>
                && EndsAs(env, old(root.nodes), Closed(CachedIndex(), cache), tr.installs,
                          PushIds(cfg, old(Before()), CachedIndex()), r, k)
                && ValidTrace(cfg, old(Before()), CachedIndex(), tr)
                && Ran(old(Before()), CachedIndex(), tr, k, r, root.nodes, remote.files)
                && (tr.puts == [] ==> remote.trace == old(remote.trace))
                && (tr.puts != [] ==> old(RemoteMatchesCache()))
                && (old(remote.Intact()) ==>
                      (remote.Intact() <==> !IndexWritten(tr, k) || Closed(PublishedIndex(root.nodes), remote.files)))
    {
      hide CrashAt, Closed, PublishedIndex, Executable, PullIds, PushIds;
      tr, k := Trace([], []), 0;
      var refusal, pulls, pushes := DecideActions(cfg);
      if refusal.Some? { return Err(refusal.value), tr, k; }
      assert pushes != [] ==> pushes[0] in IdSet(pushes);
      assert IdSet(pushes) == PushIds(cfg, Before(), CachedIndex());
      r, tr, k := RunEffects(pulls, pushes, env);
      EndsWellIff(env, old(root.nodes), Closed(CachedIndex(), cache), pulls, IdSet(pushes), r, k);
      assert IdSet(pulls) == PullIds(cfg, old(Before()), CachedIndex());
      assert tr.puts == [] <==> pushes == [] by {
        assert tr.puts != [] ==> tr.puts[0] in tr.puts;
      }
    }
  }

  /** The stored index names the same content for every skill as `idx`. */
  ghost predicate HoldsContents(files: Files, idx: Index) {
    IndexPath in files && forall id :: ContentOf(Get(IndexOf(files), id)) == ContentOf(Get(idx, id))
  }

  /** Everything an execution of these pulls and pushes needs works. */
  ghost predicate NothingFails(env: Env, local: Skills, staged: bool, pulls: set<SkillId>, pushes: set<SkillId>) {
    && (pulls != {} ==> staged && !env.applyRecordFails)
    && (forall id :: id in pulls ==> PullsCleanly(env, local, id))
    && (pushes != {} ==> |pushes| < env.putBudget && !env.baseRecordFails)
  }

  /** How an execution ends and after how many effects, from what fails in it. */
  ghost predicate EndsAs(env: Env, local: Skills, staged: bool, pulls: seq<SkillId>, pushes: set<SkillId>,
                         r: Result<Option<Skills>, SyncError>, k: nat) {
    if pulls != [] && !staged then r == Err(StagingFailed) && k == 0
    else if exists id :: id in pulls && !PullsCleanly(env, local, id) then
      && r.Err? && r.error.InstallFailed?
      && k < |pulls| && !PullsCleanly(env, local, pulls[k])
      && forall i :: 0 <= i < k ==> PullsCleanly(env, local, pulls[i])
    else if pulls != [] && env.applyRecordFails then r == Err(RecordFailed) && k == |pulls|
    else PushesEndAs(env, |pulls|, |pushes|, r, k)
  }

  /** The same for the pushes: how `p` pushes end after `n` pulls. */
  ghost predicate PushesEndAs(env: Env, n: nat, p: nat, r: Result<Option<Skills>, SyncError>, k: nat) {
    if p > 0 && env.putBudget <= p then r == Err(UploadFailed) && k == n + env.putBudget
    else if p > 0 && env.baseRecordFails then r == Err(RecordFailed) && k == n + p + 1
    else r.Ok?
  }

  function ResultOf(failure: Option<SyncError>): Result<Option<Skills>, SyncError> {
    if failure.Some? then Err(failure.value) else Ok(None)
  }

  /** How the pulls of an execution end, after `n` installs. */
  ghost predicate PullsEndAs(env: Env, local: Skills, staged: bool, pulls: seq<SkillId>, failure: Option<SyncError>,
                             n: nat) {
    && n <= |pulls|
    && (forall i :: 0 <= i < n ==> PullsCleanly(env, local, pulls[i]))
    && match failure
       case None => n == |pulls| && (pulls != [] ==> staged && !env.applyRecordFails)
       case Some(StagingFailed) => pulls != [] && !staged && n == 0
       case Some(InstallFailed(_)) => staged && n < |pulls| && !PullsCleanly(env, local, pulls[n])
       case Some(RecordFailed) => n == |pulls| > 0 && staged && env.applyRecordFails
       case _ => false
  }

  /** A failure among the pulls decides the execution; without one the pushes do. */
  lemma PullsDecide(env: Env, local: Skills, staged: bool, pulls: seq<SkillId>, failure: Option<SyncError>, n: nat)
    requires PullsEndAs(env, local, staged, pulls, failure, n)
    ensures n <= |pulls|
    ensures failure.Some? ==> failure.value in {StagingFailed, RecordFailed} || failure.value.InstallFailed?
    ensures failure.Some? && failure.value.InstallFailed? ==> n < |pulls|
    ensures failure.Some? ==> pulls != []
    ensures failure.Some? ==> forall pushes :: EndsAs(env, local, staged, pulls, pushes, Err(failure.value), n)
    ensures failure.None? ==> n == |pulls|
    ensures failure.None? ==> forall pushes, r, k :: EndsAs(env, local, staged, pulls, pushes, r, k) <==>
              PushesEndAs(env, |pulls|, |pushes|, r, k)
  {
    if n < |pulls| {
      assert pulls[n] in pulls;
    }
  }

  lemma EndsWellIff(env: Env, local: Skills, staged: bool, pulls: seq<SkillId>, pushes: set<SkillId>,
                    r: Result<Option<Skills>, SyncError>, k: nat)
    requires EndsAs(env, local, staged, pulls, pushes, r, k)
    ensures r.Ok? <==> NothingFails(env, local, staged, IdSet(pulls), pushes)
  {
    assert pulls != [] ==> pulls[0] in IdSet(pulls);
  }

  lemma {:induction false} CountIds(ids: seq<SkillId>)
    requires Distinct(ids)
    ensures |IdSet(ids)| == |ids|
    decreases |ids|
  {
    if ids != [] {
      var n := |ids| - 1;
      CountIds(ids[..n]);
      assert IdSet(ids) == IdSet(ids[..n]) + {ids[n]};
    }
  }

  lemma EqualHashesIff(a: Index, b: Index)
    ensures Hashes(a) == Hashes(b) <==> forall id :: ContentOf(Get(a, id)) == ContentOf(Get(b, id))
  {
    forall id
      ensures Get(Hashes(a), id) == ContentOf(Get(a, id)) && Get(Hashes(b), id) == ContentOf(Get(b, id))
    {
    }
    if forall id :: ContentOf(Get(a, id)) == ContentOf(Get(b, id)) {
      SameLookups(Hashes(a), Hashes(b));
    }
  }

  /** Without pushes, the base write is all that remains after the installs. */
  lemma OnlyBaseRemains(m: Machine, idx: Index, tr: Trace)
    requires tr.puts == []
    ensures CrashAt(m, idx, tr, tr.Total()).local == CrashAt(m, idx, tr, |tr.installs|).local
    ensures CrashAt(m, idx, tr, tr.Total()).files == CrashAt(m, idx, tr, |tr.installs|).files
  {
  }

  lemma SameStop(m: Machine, idx: Index, tr: Trace, k: nat, later: nat, local: Skills, files: Files)
    requires StoppedAt(m, idx, tr, k, local, files, None)
    requires CrashAt(m, idx, tr, later).local == CrashAt(m, idx, tr, k).local
    requires CrashAt(m, idx, tr, later).files == CrashAt(m, idx, tr, k).files
    ensures StoppedAt(m, idx, tr, later, local, files, None)
  {
    hide CrashAt;
  }

  /** Two lists of the same set have the same length. */
  lemma SameLength(a: seq<SkillId>, b: seq<SkillId>)
    requires ListsSet(a, IdSet(b)) && Distinct(b)
    ensures |a| == |b|
  {
    CountIds(a);
    CountIds(b);
    assert IdSet(a) == IdSet(b);
  }

  lemma PushedSurviveInstall(local: Skills, idx: Index, pulls: seq<SkillId>, pushes: seq<SkillId>)
    requires forall id :: id in pushes ==> id in local
    ensures forall id :: id in pushes ==> id in Install(local, idx, pulls)
  {
  }

  /** Every pulled skill is in the index and every pushed one in the local root, before and after the pulls. */
  lemma ExecutableIds(cfg: Config, m: Machine, idx: Index)
    requires Executable(cfg, m, idx)
    ensures forall id :: id in PullIds(cfg, m, idx) ==> id in idx
    ensures forall id :: id in PushIds(cfg, m, idx) ==> id in m.local
  {
    hide PlanAt, Installable;
    forall id
      ensures id in PullIds(cfg, m, idx) ==> id in idx
      ensures id in PushIds(cfg, m, idx) ==> id in m.local
    {
      assert MayRun(cfg, m, idx, id);
      PushedIdIsLocal(cfg, m, idx, id);
    }
  }

  lemma PushedIdIsLocal(cfg: Config, m: Machine, idx: Index, id: SkillId)
    ensures ToPush(cfg, m, idx, id) ==> id in m.local
  {
    PlannedActionMeans(cfg, id, Get(m.base, id), Get(m.local, id), Get(idx, id));
  }

  /** An execution stopped after `k` effects, with all of them exactly when it succeeded and returned the new base. */
  ghost predicate Ran(m: Machine, idx: Index, tr: Trace, k: nat, r: Result<Option<Skills>, SyncError>, local: Skills,
                      files: Files) {
    && StoppedAt(m, idx, tr, k, local, files, InstallErrorOf(r))
    && k <= tr.Total()
    && (InstallErrorOf(r).Some? ==> k < |tr.installs|)
    && (r.Ok? <==> k == tr.Total())
    && (r.Ok? ==> r.value == if tr.Total() == 0 then None else Some(NewBase(m, idx, tr)))
  }

  predicate Refused(r: Result<Option<Skills>, SyncError>) {
    r == Err(GateClosed) || r == Err(RemoteChanged)
  }

  function InstallErrorOf(r: Result<Option<Skills>, SyncError>): Option<Apply.ApplyError> {
    if r.Err? && r.error.InstallFailed? then Some(r.error.error) else None
  }
}
