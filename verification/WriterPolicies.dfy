/** What the gate and the writer policies guarantee about a cycle, however far it gets. */
module WriterPolicies {
  import opened Common
  import opened SyncState
  import opened SyncPlan
  import opened Remote
  import opened SyncCycle

  function StatusAt(cfg: Config, m: Machine, idx: Index, id: SkillId): Status {
    ClassifyWithOverride(Get(m.base, id), Get(m.local, id), Get(idx, id), Get(cfg.overrides, id))
  }

  predicate MayPull(cfg: Config, idx: Index, id: SkillId) {
    cfg.policy in {PushPull, PullOnly} && id in idx && Installable(idx[id].content, cfg.target)
  }

  /**
   Which skills stop a cycle: a conflict or a one-sided deletion always does; a new skill does unless admitted;
   and a change in the direction the policy closes, or a pull the target does not take, does too.
   */
  lemma GateByStatus(cfg: Config, m: Machine, idx: Index, id: SkillId)
    ensures
      MayRun(cfg, m, idx, id) <==>
        match StatusAt(cfg, m, idx, id)
        case Conflict => false
        case LocalDeleted => false
        case RemoteDeleted => false
        case Pull => MayPull(cfg, idx, id)
        case RemoteNew => cfg.allowNew && MayPull(cfg, idx, id)
        case Push => cfg.policy in {PushPull, PushOnly}
        case LocalNew => cfg.allowNew && cfg.policy in {PushPull, PushOnly}
        case _ => true
  {
    hide Installable;
    var s := StatusAt(cfg, m, idx, id);
    assert s in {Pull, RemoteNew} ==> id in idx;
  }

  predicate ClosedForPush(policy: WriterPolicy) { policy == PullOnly || policy == NoWrites }
  predicate ClosedForPull(policy: WriterPolicy) { policy == PushOnly || policy == NoWrites }

  /** A policy that closes a direction leaves that side alone after every prefix of a cycle's effects. */
  lemma PolicyLimitsEffects(cfg: Config, m: Machine, idx: Index, tr: Trace, k: nat)
    requires ValidTrace(cfg, m, idx, tr)
    ensures ClosedForPush(cfg.policy) ==> tr.puts == [] && CrashAt(m, idx, tr, k).files == m.files
    ensures ClosedForPull(cfg.policy) ==> tr.installs == [] && CrashAt(m, idx, tr, k).local == m.local
    ensures cfg.policy == NoWrites ==> CrashAt(m, idx, tr, k) == m
  {
    hide PlanAt, CrashAt;
    PullAndPushIds(cfg, m, idx);
    if ClosedForPush(cfg.policy) && tr.puts != [] {
      assert ToPush(cfg, m, idx, tr.puts[0]);
      PlannedActionMeans(cfg, tr.puts[0], Get(m.base, tr.puts[0]), Get(m.local, tr.puts[0]), Get(idx, tr.puts[0]));
      PlanAtIs(cfg, m, idx, tr.puts[0]);
      assert false;
    }
    if ClosedForPull(cfg.policy) && tr.installs != [] {
      assert ToPull(cfg, m, idx, tr.installs[0]);
      PlannedActionMeans(cfg, tr.installs[0], Get(m.base, tr.installs[0]), Get(m.local, tr.installs[0]),
        Get(idx, tr.installs[0]));
      PlanAtIs(cfg, m, idx, tr.installs[0]);
      assert false;
    }
    NothingPutNothingInstalled(m, idx, tr, k);
  }

  lemma PlanAtIs(cfg: Config, m: Machine, idx: Index, id: SkillId)
    ensures PlanAt(cfg, m.base, m.local, idx, id) == PlanSkill(cfg, id, Get(m.base, id), Get(m.local, id), Get(idx, id))
  {
  }

  lemma NothingPutNothingInstalled(m: Machine, idx: Index, tr: Trace, k: nat)
    ensures tr.puts == [] ==> CrashAt(m, idx, tr, k).files == m.files
    ensures tr.installs == [] ==> CrashAt(m, idx, tr, k).local == m.local
    ensures tr.puts == [] && tr.installs == [] ==> CrashAt(m, idx, tr, k) == m
  {
    hide PublishedArchives, Install, NewBase, PublishedIndex;
    if tr.puts == [] {
      PublishNothing(Install(m.local, idx, tr.installs));
    }
    if tr.installs == [] {
      InstallNothing(m.local, idx);
    }
  }

  lemma PublishNothing(local: Skills)
    ensures PublishedArchives(local, []) == map[]
  {
  }

  lemma InstallNothing(local: Skills, idx: Index)
    ensures Install(local, idx, []) == local
  {
  }

  /**
   Which published skills a push keeps: a skill of the planned index stays in the new one if and only if it is
   not deprecated or the device has it installed. So no executable cycle drops a skill that is not deprecated.
   */
  lemma PushKeepsPublishedSkills(cfg: Config, m: Machine, idx: Index, tr: Trace, k: nat, id: SkillId)
    requires Executable(cfg, m, idx) && ValidTrace(cfg, m, idx, tr)
    requires IndexWritten(tr, k) && id in idx
    ensures id in IndexOf(CrashAt(m, idx, tr, k).files) <==> !idx[id].deprecated || id in m.local
  {
    hide CrashAt, Executable, PlanAt, Installable;
    CrashSides(cfg, m, idx, tr, k, id);
    PullAndPushIds(cfg, m, idx);
    assert Take(tr.installs, k) == tr.installs;
    PublishedSkillIsPlanned(cfg, m, idx, id);
  }

  /**
   An index put of a cycle clears every deprecated mark. A mark the remote carried survives any prefix of a cycle if
   and only if no index was put; otherwise the entry is there without the mark or gone, as the local root has it.
   */
  lemma PushClearsDeprecation(m: Machine, idx: Index, tr: Trace, k: nat, id: SkillId)
    ensures
      var index := IndexOf(CrashAt(m, idx, tr, k).files);
      && (IndexWritten(tr, k) ==> (id in index ==> !index[id].deprecated))
      && (id in IndexOf(m.files) && IndexOf(m.files)[id].deprecated ==>
            && (id in index && index[id].deprecated <==> !IndexWritten(tr, k))
            && (id !in index <==> IndexWritten(tr, k) && id !in Install(m.local, idx, tr.installs)))
  {
    hide CrashAt, Install, PublishedIndex;
    CrashedIndex(m, idx, tr, k);
    if IndexWritten(tr, k) {
      LocalWhenIndexed(m, idx, tr, k);
      PublishedAt(CrashAt(m, idx, tr, k).local, id);
    }
  }

  lemma LocalWhenIndexed(m: Machine, idx: Index, tr: Trace, k: nat)
    requires IndexWritten(tr, k)
    ensures CrashAt(m, idx, tr, k).local == Install(m.local, idx, tr.installs)
  {
    assert Take(tr.installs, k) == tr.installs;
  }

  lemma PublishedSkillIsPlanned(cfg: Config, m: Machine, idx: Index, id: SkillId)
    requires Executable(cfg, m, idx) && id in idx
    ensures idx[id].deprecated ==> !ToPull(cfg, m, idx, id)
    ensures !idx[id].deprecated ==> ToPull(cfg, m, idx, id) || id in m.local
  {
    hide Installable, Executable;
    assert MayRun(cfg, m, idx, id) by { MayRunAll(cfg, m, idx, id); }
  }

  lemma MayRunAll(cfg: Config, m: Machine, idx: Index, id: SkillId)
    requires Executable(cfg, m, idx)
    ensures MayRun(cfg, m, idx, id)
  {
  }
}
