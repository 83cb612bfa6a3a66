/** Whole sync cycles and the daemon loop that repeats them. */
module SyncDaemon {
  import opened Common
  import opened SyncState
  import opened SyncPlan
  import opened Remote
  import opened SyncCycle
  import opened SyncApply
  import opened SyncDevice
  import opened WriterPolicies

  datatype CycleResult =
    | DryRun | Blocked | DownloadFailed(missing: Path) | ApplyFailed(error: SyncError)
    | Complete(record: Option<Skills>)

  /** What the gate of a cycle looks at: a blocked item, or an admitted deletion. */
  predicate StopsCycle(item: PlanItem) {
    !item.allowed || item.action in {DeleteLocal, DeprecateRemote}
  }

  ghost predicate CycleStopped(cfg: Config, m: Machine, idx: Index) {
    exists id :: StopsCycle(PlanAt(cfg, m.base, m.local, idx, id))
  }

  /** Which skills stop a cycle before anything is executed, by status, admission and policy. */
  lemma StopsByStatus(cfg: Config, m: Machine, idx: Index, id: SkillId)
    ensures
      StopsCycle(PlanAt(cfg, m.base, m.local, idx, id)) <==>
        match StatusAt(cfg, m, idx, id)
        case Conflict => true
        case LocalDeleted => true
        case RemoteDeleted => true
        case Pull => cfg.policy in {PushOnly, NoWrites}
        case RemoteNew => !cfg.allowNew || cfg.policy in {PushOnly, NoWrites}
        case Push => cfg.policy in {PullOnly, NoWrites}
        case LocalNew => !cfg.allowNew || cfg.policy in {PullOnly, NoWrites}
        case _ => false
  {
    hide ClassifyHashes;
  }

  lemma CountersDecideStop(cfg: Config, m: Machine, idx: Index, items: map<SkillId, PlanItem>)
    requires PlansAll(cfg, m, idx, items)
    ensures StoppedIds(items) != {} || WithAction(items, {DeleteLocal, DeprecateRemote}) != {} <==>
      CycleStopped(cfg, m, idx)
  {
    hide PlanAt;
    forall id
      ensures id in StoppedIds(items) || id in WithAction(items, {DeleteLocal, DeprecateRemote})
              <==> StopsCycle(PlanAt(cfg, m.base, m.local, idx, id))
    {
      if id !in items {
        UnknownIdIsNoop(cfg, m, idx, id);
      }
    }
  }

  method PlanStopsCycle(d: Device, cfg: Config) returns (stopped: bool)
    ensures stopped <==> CycleStopped(cfg, d.Before(), d.CachedIndex())
  {
    hide PlanAt, CycleStopped;
    var plan := BuildSyncPlan(cfg, d.base, d.root.nodes, d.CachedIndex());
    var deletions := ActionSkillIds(plan.items, {DeleteLocal, DeprecateRemote});
    CountersDecideStop(cfg, d.Before(), d.CachedIndex(), plan.items);
    NoneListed(deletions, WithAction(plan.items, {DeleteLocal, DeprecateRemote}));
    stopped := plan.blocked != 0 || deletions != [];
  }

  /** Everything that has to hold for an execution from the machine `m` and the cached index `idx` to succeed. */
  ghost predicate Succeeds(cfg: Config, env: Env, m: Machine, idx: Index) {
    && Executable(cfg, m, idx)
    && (PushIds(cfg, m, idx) != {} ==> HoldsContents(m.files, idx))
    && NothingFails(env, m.local, true, PullIds(cfg, m, idx), PushIds(cfg, m, idx))
  }

  /** A file that an index download needs was missing when it began. */
  ghost predicate Unreadable(files: Files, cache: Files) {
    || IndexPath !in files
    || exists id :: id in IndexOf(files) && var p := ArchiveOf(id, IndexOf(files)[id]); p !in files && p !in cache
  }

  /**
   One cycle: download, plan, and execute when nothing stops it. Other devices may upload between the download and
   the execution; `m` is the machine when the plan is made. The download fails only for files that were missing. Then
   the inputs decide: a dry run stops after planning, a blocked skill stops the cycle, and the cycle is complete if
   and only if nothing stops it and nothing it needs fails.
   */
  method RunSyncCycle(d: Device, cfg: Config, dryRun: bool, env: Env)
    returns (r: CycleResult, ghost m: Machine, ghost tr: Trace, ghost k: nat)
    requires d.Valid()
    modifies d`cache, d.root, d.remote
    ensures d.Valid()
    ensures m.local == old(d.root.nodes) && m.base == d.base && old(d.remote.files).Keys <= m.files.Keys
    ensures r.DownloadFailed? ==> Unreadable(old(d.remote.files), old(d.cache))
    ensures !r.DownloadFailed? ==>
              && IndexPath in old(d.remote.files) && d.CachedIndex() == IndexOf(old(d.remote.files))
              && Closed(d.CachedIndex(), d.cache)
    ensures r.DryRun? <==> !r.DownloadFailed? && dryRun
    ensures r.Blocked? <==> !r.DownloadFailed? && !dryRun && CycleStopped(cfg, m, d.CachedIndex())
    ensures r.Complete? <==>
              && !r.DownloadFailed? && !dryRun && !CycleStopped(cfg, m, d.CachedIndex())
              && Succeeds(cfg, env, m, d.CachedIndex())
    ensures !r.Complete? && (r.ApplyFailed? ==> Refused(Err(r.error))) ==>
              d.Before() == m && d.remote.trace == old(d.remote.trace)
    ensures r.Complete? || (r.ApplyFailed? && !Refused(Err(r.error))) ==>
              && Executable(cfg, m, d.CachedIndex()) && ValidTrace(cfg, m, d.CachedIndex(), tr)
              && (tr.puts != [] ==> HoldsContents(m.files, d.CachedIndex()))
              && Ran(m, d.CachedIndex(), tr, k, ExecutionOf(r), d.root.nodes, d.remote.files)
              && EndsAs(env, m.local, true, tr.installs, PushIds(cfg, m, d.CachedIndex()), ExecutionOf(r), k)
              && (tr.puts == [] ==> d.remote.trace == old(d.remote.trace))
  {
    hide Executable, CrashAt, ValidTrace, PlanAt, Ran, CycleStopped, Closed, PublishedIndex, Hashes, IndexWritten,
          PushIds, PullIds, NothingFails, EndsAs, HoldsContents;
    tr, k, m := Trace([], []), 0, d.Before();
    var cache, missing := d.remote.DownloadSnapshot(d.cache);
    d.cache := cache;
    m := d.Before();
    if missing.Some? { return DownloadFailed(missing.value), m, tr, k; }
    d.remote.Interference();
    m := d.Before();
    var stopped := PlanStopsCycle(d, cfg);
    if dryRun { return DryRun, m, tr, k; }
    if stopped { return CycleResult.Blocked, m, tr, k; }
    var applied;
    applied, tr, k := d.ExecuteSyncApply(cfg, env);
    assert tr.puts != [] ==> tr.puts[0] in tr.puts;
    if applied.Err? { return ApplyFailed(applied.error), m, tr, k; }
    return Complete(applied.value), m, tr, k;
  }

  function ExecutionOf(r: CycleResult): Result<Option<Skills>, SyncError>
    requires r.Complete? || r.ApplyFailed?
  {
    if r.Complete? then Ok(r.record) else Err(r.error)
  }

  lemma NoneListed(list: seq<SkillId>, ids: set<SkillId>)
    requires ListsSet(list, ids)
    ensures list == [] <==> ids == {}
  {
    if list != [] {
      assert list[0] in list;
    }
  }

  // ----- the daemon ---------------------------------------------------------------------------------------

  /** One turn of the daemon: what fails in it, and what the user leaves in the local root during the sleep after it. */
  datatype Turn = Turn(env: Env, copyFails: bool, edit: Option<Skills>)

  datatype CycleStatus = CycleComplete | CycleBlocked | CycleDryRun | CycleError

  /** A device, its cache and the remote it talks to. */
  datatype Situation = Situation(machine: Machine, cache: Files)

  /**
   What happened in one turn: whether the download succeeded, the machine when the plan was made, how the execution
   ended after `k` effects of `tr`, and the turn's status.
   */
  datatype TurnRecord = TurnRecord(before: Situation, downloaded: bool, planned: Machine, tr: Trace, k: nat,
                                   execution: Result<Option<Skills>, SyncError>, status: CycleStatus, after: Situation)

  /** The turn ends as its inputs decide: the status and the machine it leaves. */
  ghost predicate IsTurn(cfg: Config, dryRun: bool, turn: Turn, t: TurnRecord) {
    Downloads(t) && HasStatus(cfg, dryRun, turn, t) && LeavesMachine(cfg, turn, t)
  }

  /** The download brings the stored index and its archives, unless a file it needs was missing. */
  ghost predicate Downloads(t: TurnRecord) {
    var m, stored := t.before.machine, IndexOf(t.before.machine.files);
    && t.planned.local == m.local && t.planned.base == m.base && m.files.Keys <= t.planned.files.Keys
    && (t.downloaded ==> IndexPath in m.files && IndexOf(t.after.cache) == stored && Closed(stored, t.after.cache))
    && (!t.downloaded ==> Unreadable(m.files, t.before.cache))
  }

  ghost predicate HasStatus(cfg: Config, dryRun: bool, turn: Turn, t: TurnRecord) {
    var m, idx := t.planned, IndexOf(t.after.cache);
    && (t.status == CycleDryRun <==> t.downloaded && dryRun)
    && (t.status == CycleBlocked <==> t.downloaded && !dryRun && CycleStopped(cfg, m, idx))
    && (t.status == CycleComplete <==>
          && t.downloaded && !dryRun && !CycleStopped(cfg, m, idx) && Succeeds(cfg, turn.env, m, idx)
          && (turn.copyFails ==> PullIds(cfg, m, idx) == {} == PushIds(cfg, m, idx)))
    && (t.execution.Ok? <==>
          && t.downloaded && !dryRun && !CycleStopped(cfg, m, idx) && Succeeds(cfg, turn.env, m, idx))
  }

  ghost predicate LeavesMachine(cfg: Config, turn: Turn, t: TurnRecord) {
    var m, idx, left := t.planned, IndexOf(t.after.cache), t.after.machine;
    && (Refused(t.execution) ==> left == m)
    && (!Refused(t.execution) ==>
          && t.downloaded && ValidTrace(cfg, m, idx, t.tr)
          && Ran(m, idx, t.tr, t.k, t.execution, left.local, left.files)
          && EndsAs(turn.env, m.local, true, t.tr.installs, PushIds(cfg, m, idx), t.execution, t.k)
          && (t.tr.puts != [] ==> HoldsContents(m.files, idx)))
    && (t.status != CycleComplete ==> left.base == m.base)
    && (t.status == CycleComplete ==> left == Completed(m, idx, t.tr))
  }

  /** The local root after the first `n` sleeps, if only the user touches it. */
  function AfterEdits(local: Skills, turns: seq<Turn>, n: nat): Skills
    requires n <= |turns|
  {
    if n == 0 then local
    else if turns[n - 1].edit.Some? then turns[n - 1].edit.value
    else AfterEdits(local, turns, n - 1)
  }

  predicate NeverPushes(cfg: Config, dryRun: bool) { dryRun || ClosedForPush(cfg.policy) }
  predicate NeverPulls(cfg: Config, dryRun: bool) { dryRun || ClosedForPull(cfg.policy) }

  lemma PolicyHoldsInCycle(cfg: Config, m: Machine, idx: Index, tr: Trace, k: nat,
                           r: Result<Option<Skills>, SyncError>, local: Skills, files: Files)
    requires ValidTrace(cfg, m, idx, tr) && Ran(m, idx, tr, k, r, local, files)
    ensures ClosedForPush(cfg.policy) ==> tr.puts == [] && files == m.files
    ensures ClosedForPull(cfg.policy) ==> local == m.local
  {
    hide CrashAt, ValidTrace;
    PolicyLimitsEffects(cfg, m, idx, tr, k);
    if ClosedForPull(cfg.policy) {
      SameLookups(local, m.local);
    }
  }

  /** Runs one cycle and keeps the record of a successful one as the base of the next. */
  method RunTurn(d: Device, cfg: Config, dryRun: bool, turn: Turn) returns (status: CycleStatus, ghost t: TurnRecord)
    requires d.Valid()
    modifies d, d.root, d.remote
    ensures d.Valid()
    ensures IsTurn(cfg, dryRun, turn, t) && t.status == status
    ensures t.before == old(SituationOf(d)) && t.after == SituationOf(d)
    ensures status in {CycleBlocked, CycleDryRun} || NeverPushes(cfg, dryRun) ==> d.remote.trace == old(d.remote.trace)
    ensures status in {CycleBlocked, CycleDryRun} || NeverPulls(cfg, dryRun) ==> d.root.nodes == old(d.root.nodes)
  {
    hide Executable, CrashAt, ValidTrace, CycleStopped, Ran, PublishedIndex, Install, PullIds, PushIds, Succeeds,
          EndsAs, HoldsContents, Closed, Unreadable;
    var r, m, tr, k := RunSyncCycle(d, cfg, dryRun, turn.env);
    var execution := if r.Complete? || r.ApplyFailed? then ExecutionOf(r) else Err(GateClosed);
    if !Refused(execution) {
      PolicyHoldsInCycle(cfg, m, d.CachedIndex(), tr, k, execution, d.root.nodes, d.remote.files);
    }
    status := match r
      case DryRun => CycleDryRun
      case Blocked => CycleBlocked
      case DownloadFailed(_) => CycleError
      case ApplyFailed(_) => CycleError
      case Complete(record) => if record.Some? && turn.copyFails then CycleError else CycleComplete;
    if r.Complete? {
      RecordIffEffects(cfg, m, d.CachedIndex(), tr, k, r.record, d.root.nodes, d.remote.files);
      CompletedState(m, d.CachedIndex(), tr, k, r.record, d.root.nodes, d.remote.files);
      if status == CycleComplete && r.record.Some? { d.base := r.record.value; }
    }
    t := TurnRecord(Situation(Machine(old(d.root.nodes), old(d.base), old(d.remote.files)), old(d.cache)),
      !r.DownloadFailed?, m, tr, k, execution, status, SituationOf(d));
  }

  ghost function SituationOf(d: Device): Situation
    reads d, d.root, d.remote
  {
    Situation(d.Before(), d.cache)
  }

  /** A cycle returns a record exactly when it pulled or pushed something. */
  lemma RecordIffEffects(cfg: Config, m: Machine, idx: Index, tr: Trace, k: nat, record: Option<Skills>,
                         local: Skills, files: Files)
    requires ValidTrace(cfg, m, idx, tr) && Ran(m, idx, tr, k, Ok(record), local, files)
    ensures record.None? <==> PullIds(cfg, m, idx) == {} == PushIds(cfg, m, idx)
  {
    hide PullIds, PushIds, NewBase, CrashAt;
    assert tr.installs != [] ==> tr.installs[0] in tr.installs;
    assert tr.puts != [] ==> tr.puts[0] in tr.puts;
  }

  /** A successful execution whose record becomes the base has completed the cycle. */
  lemma CompletedState(m: Machine, idx: Index, tr: Trace, k: nat, record: Option<Skills>, local: Skills, files: Files)
    requires Ran(m, idx, tr, k, Ok(record), local, files)
    ensures Completed(m, idx, tr) == Machine(local, if record.Some? then record.value else m.base, files)
  {
    hide Install, PublishedArchives, PublishedIndex;
    SameLookups(local, CrashAt(m, idx, tr, k).local);
  }

  /** During the sleep after a turn the user may edit the local root and other devices may upload. */
  predicate Sleeps(turn: Turn, before: Situation, after: Situation) {
    && after.cache == before.cache && after.machine.base == before.machine.base
    && after.machine.local == (if turn.edit.Some? then turn.edit.value else before.machine.local)
    && before.machine.files.Keys <= after.machine.files.Keys
  }

  /** `run` chains one turn for every listed status, from one situation to the next, with a sleep in between. */
  ghost predicate IsRun(cfg: Config, dryRun: bool, turns: seq<Turn>, cycles: seq<CycleStatus>, run: seq<TurnRecord>) {
    && |run| == |cycles| <= |turns|
    && (forall i :: 0 <= i < |run| ==> run[i].status == cycles[i] && IsTurn(cfg, dryRun, turns[i], run[i]))
    && (forall i :: 0 < i < |run| ==> Sleeps(turns[i - 1], run[i - 1].after, run[i].before))
  }

  lemma OneMoreTurn(cfg: Config, dryRun: bool, turns: seq<Turn>, cycles: seq<CycleStatus>, run: seq<TurnRecord>,
                    t: TurnRecord)
    requires IsRun(cfg, dryRun, turns, cycles, run) && |cycles| < |turns|
    requires IsTurn(cfg, dryRun, turns[|cycles|], t)
    requires run != [] ==> Sleeps(turns[|run| - 1], run[|run| - 1].after, t.before)
    ensures IsRun(cfg, dryRun, turns, cycles + [t.status], run + [t])
  {
    hide IsTurn, Sleeps;
  }

  /**
   The daemon: cycles separated by sleeps in which the user edits and other devices upload, until the turns are
   used up or a blocked cycle stops it. Every listed status is that of a turn that ran from where the one before and
   the sleep after it had left the device. Whatever fails on the way, a policy that closes a direction (or a dry
   run) leaves that side alone over the whole run: this device puts nothing, or the local root holds exactly
   what the user left there.
   */
  method RunSyncDaemon(d: Device, cfg: Config, dryRun: bool, stopOnBlocked: bool, turns: seq<Turn>)
    returns (cycles: seq<CycleStatus>, ghost run: seq<TurnRecord>)
    requires d.Valid()
    modifies d, d.root, d.remote
    ensures d.Valid() && |cycles| <= |turns|
    ensures IsRun(cfg, dryRun, turns, cycles, run)
    ensures if run == [] then SituationOf(d) == old(SituationOf(d))
            else run[0].before == old(SituationOf(d)) && run[|run| - 1].after == SituationOf(d)
    ensures |cycles| < |turns| ==> stopOnBlocked && cycles != [] && cycles[|cycles| - 1] == CycleBlocked
    ensures stopOnBlocked ==> forall i :: 0 <= i < |cycles| - 1 ==> cycles[i] != CycleBlocked
    ensures CycleComplete !in cycles ==> d.base == old(d.base)
    ensures NeverPushes(cfg, dryRun) ==> d.remote.trace == old(d.remote.trace)
    ensures NeverPulls(cfg, dryRun) ==>
              d.root.nodes == AfterEdits(old(d.root.nodes), turns, if cycles == [] then 0 else |cycles| - 1)
  {
    hide IsTurn;
    cycles, run := [], [];
    while |cycles| < |turns|
      invariant d.Valid() && IsRun(cfg, dryRun, turns, cycles, run)
      invariant run == [] ==> SituationOf(d) == old(SituationOf(d))
      invariant run != [] ==> run[0].before == old(SituationOf(d))
      invariant run != [] && |run| < |turns| ==> Sleeps(turns[|run| - 1], run[|run| - 1].after, SituationOf(d))
      invariant 0 < |run| == |turns| ==> run[|run| - 1].after == SituationOf(d)
      invariant stopOnBlocked ==> CycleBlocked !in cycles
      invariant CycleComplete !in cycles ==> d.base == old(d.base)
      invariant NeverPushes(cfg, dryRun) ==> d.remote.trace == old(d.remote.trace)
      invariant cycles == [] ==> d.root.nodes == old(d.root.nodes)
      invariant NeverPulls(cfg, dryRun) && |cycles| < |turns| ==>
        d.root.nodes == AfterEdits(old(d.root.nodes), turns, |cycles|)
      invariant NeverPulls(cfg, dryRun) && 0 < |cycles| == |turns| ==>
                  d.root.nodes == AfterEdits(old(d.root.nodes), turns, |cycles| - 1)
    {
      var turn := turns[|cycles|];
      var status, t := RunTurn(d, cfg, dryRun, turn);
      BaseMovesOnlyWhenComplete(cfg, dryRun, turn, t);
      OneMoreTurn(cfg, dryRun, turns, cycles, run, t);
      cycles, run := cycles + [status], run + [t];
      if stopOnBlocked && status == CycleBlocked { break; }
      if |cycles| < |turns| {
        d.remote.Interference();
        if turn.edit.Some? { d.root.nodes := turn.edit.value; }
      }
    }
  }

  lemma BaseMovesOnlyWhenComplete(cfg: Config, dryRun: bool, turn: Turn, t: TurnRecord)
    requires IsTurn(cfg, dryRun, turn, t)
    ensures t.status != CycleComplete ==> t.after.machine.base == t.before.machine.base
  {
    hide HasStatus;
  }
}
