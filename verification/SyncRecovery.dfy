/** What completed and interrupted cycles achieve on one device when nobody else acts. */
module SyncRecovery {
  import opened Common
  import opened SyncState
  import opened SyncPlan
  import opened Remote
  import opened SyncCycle

  /** The remote index as the device downloads it at the start of a cycle. */
  function Idx(m: Machine): Index {
    IndexOf(m.files)
  }

  function LocalSide(m: Machine, id: SkillId): Option<Content> { Get(m.local, id) }
  function RemoteSide(m: Machine, id: SkillId): Option<Content> { ContentOf(Get(Idx(m), id)) }

  /** A no-op whose two sides differ: a local-only skill, an acknowledged override or a deprecated entry. */
  predicate Skewed(cfg: Config, m: Machine, id: SkillId) {
    ActionOf(cfg, m, Idx(m), id) == Noop && LocalSide(m, id) != RemoteSide(m, id)
  }

  ghost predicate PlansPush(cfg: Config, m: Machine) {
    exists id :: ToPush(cfg, m, Idx(m), id)
  }

  /** The skill is not skewed, or nothing is pushed that would overwrite it. */
  ghost predicate Undisturbed(cfg: Config, m: Machine, id: SkillId) {
    !Skewed(cfg, m, id) || !PlansPush(cfg, m)
  }

  /** What the plan wants the local and the remote side of a skill to become. */
  function Goal(cfg: Config, m: Machine, id: SkillId): (Option<Content>, Option<Content>) {
    if ToPull(cfg, m, Idx(m), id) then (RemoteSide(m, id), RemoteSide(m, id))
    else if ToPush(cfg, m, Idx(m), id) then (LocalSide(m, id), LocalSide(m, id))
    else (LocalSide(m, id), RemoteSide(m, id))
  }

  lemma EqualSidesAreNoop(cfg: Config, id: SkillId, base: Option<Content>, local: Option<Content>,
                          remote: Option<Entry>)
    requires local == ContentOf(remote)
    ensures PlanSkill(cfg, id, base, local, remote).action == Noop
    ensures PlanSkill(cfg, id, base, local, remote).allowed
    ensures PlanSkill(cfg, id, base, local, remote).status != Conflict
  {
  }

  lemma NoopSurvivesLosingBase(cfg: Config, id: SkillId, base: Option<Content>, local: Option<Content>,
                               remote: Option<Entry>)
    requires PlanSkill(cfg, id, base, local, remote).action == Noop
    ensures PlanSkill(cfg, id, None, local, remote).action == Noop
    ensures PlanSkill(cfg, id, None, local, remote).allowed
    ensures PlanSkill(cfg, id, None, local, remote).status != Conflict
  {
  }

  /** What the gate guarantees about every skill of an executable cycle. */
  lemma PlannedSkill(cfg: Config, m: Machine, id: SkillId)
    requires Executable(cfg, m, Idx(m))
    ensures
      var item := PlanAt(cfg, m.base, m.local, Idx(m), id);
      && item.allowed && item.status != Conflict
      && item.action in {Noop, PullSkill, PullNew, PushSkill, PushNew}
      && (IsPull(item.action) ==>
            LocalSide(m, id) == Get(m.base, id) && id in Idx(m) && RemoteSide(m, id) != LocalSide(m, id)
            && Installable(Idx(m)[id].content, cfg.target))
      && (IsPush(item.action) ==>
            RemoteSide(m, id) == Get(m.base, id) && id in m.local && RemoteSide(m, id) != LocalSide(m, id))
  {
    hide Installable;
    assert MayRun(cfg, m, Idx(m), id);
    PlannedActionMeans(cfg, id, Get(m.base, id), Get(m.local, id), Get(Idx(m), id));
  }

  /** After a crash a skill is either done (a no-op with its goal reached) or exactly as before. */
  lemma CrashedSkill(cfg: Config, m: Machine, tr: Trace, k: nat, id: SkillId)
    requires Executable(cfg, m, Idx(m)) && ValidTrace(cfg, m, Idx(m), tr)
    ensures
      var c := CrashAt(m, Idx(m), tr, k);
      var item, item' := PlanAt(cfg, m.base, m.local, Idx(m), id), PlanAt(cfg, c.base, c.local, Idx(c), id);
      && item'.allowed && item'.status != Conflict
      && LocalSide(c, id) in {LocalSide(m, id), Goal(cfg, m, id).0}
      && (item'.action == Noop
          || (&& item' == item && !BaseWritten(tr, k)
              && LocalSide(c, id) == LocalSide(m, id) && Get(Idx(c), id) == Get(Idx(m), id)))
      && (item'.action == Noop && item.action != Noop ==> (LocalSide(c, id), RemoteSide(c, id)) == Goal(cfg, m, id))
      && (item.action == Noop && Undisturbed(cfg, m, id) ==> (LocalSide(c, id), RemoteSide(c, id)) == Goal(cfg, m, id))
      && (item.action == Noop ==> LocalSide(c, id) == LocalSide(m, id))
      && (BaseWritten(tr, k) ==> item'.action == Noop)
  {
    hide PlanSkill, CrashAt, PublishedIndex, Installable, MayRun, Executable;
    var c := CrashAt(m, Idx(m), tr, k);
    CrashSides(cfg, m, Idx(m), tr, k, id);
    PullAndPushIds(cfg, m, Idx(m));
    PlannedSkill(cfg, m, id);
    assert BaseWritten(tr, k) ==> Take(tr.installs, k) == tr.installs && (tr.puts != [] ==> IndexWritten(tr, k));
    assert IndexWritten(tr, k) ==> Take(tr.installs, k) == tr.installs;
    if IndexWritten(tr, k) {
      assert ToPush(cfg, m, Idx(m), tr.puts[0]) && PlansPush(cfg, m);
      EqualSidesAreNoop(cfg, id, Get(c.base, id), Get(c.local, id), Get(Idx(c), id));
    } else if id in Take(tr.installs, k) {
      assert id in tr.installs;
      EqualSidesAreNoop(cfg, id, Get(c.base, id), Get(c.local, id), Get(Idx(c), id));
    } else if BaseWritten(tr, k) {
      assert id !in tr.installs && id !in tr.puts;
      assert !ToPull(cfg, m, Idx(m), id) && !ToPush(cfg, m, Idx(m), id);
      NoopSurvivesLosingBase(cfg, id, Get(m.base, id), Get(m.local, id), Get(Idx(m), id));
    }
  }

  lemma CrashedSkillKeepsGoal(cfg: Config, m: Machine, tr: Trace, k: nat, id: SkillId)
    requires Executable(cfg, m, Idx(m)) && ValidTrace(cfg, m, Idx(m), tr)
    ensures
      var c := CrashAt(m, Idx(m), tr, k);
      && MayRun(cfg, c, Idx(c), id)
      && PlanAt(cfg, c.base, c.local, Idx(c), id).status != Conflict
      && (ToPull(cfg, m, Idx(m), id) ==> !ToPush(cfg, c, Idx(c), id))
      && (ToPush(cfg, c, Idx(c), id) ==> ToPush(cfg, m, Idx(m), id))
      && Goal(cfg, c, id).0 == Goal(cfg, m, id).0
      && (Undisturbed(cfg, m, id) ==> Goal(cfg, c, id) == Goal(cfg, m, id))
      && (Skewed(cfg, c, id) ==> Skewed(cfg, m, id))
  {
    hide PlanAt, CrashAt, BaseWritten, Idx, Installable, Executable, ValidTrace;
    CrashedSkill(cfg, m, tr, k, id);
    PlannedSkill(cfg, m, id);
  }

  /**
   Crash and re-run: after any prefix of a cycle's effects and with no new edits, the next cycle is again
   executable, shows no conflict, never pushes a skill that was to be pulled, and has the same goal for every
   undisturbed skill, which stays undisturbed.
   */
  lemma CrashIsRecoverable(cfg: Config, m: Machine, tr: Trace, k: nat)
    requires Executable(cfg, m, Idx(m)) && ValidTrace(cfg, m, Idx(m), tr)
    ensures
      var c := CrashAt(m, Idx(m), tr, k);
      && Executable(cfg, c, Idx(c))
      && forall id ::
           && PlanAt(cfg, c.base, c.local, Idx(c), id).status != Conflict
           && (ToPull(cfg, m, Idx(m), id) ==> !ToPush(cfg, c, Idx(c), id))
           && Goal(cfg, c, id).0 == Goal(cfg, m, id).0
           && (Undisturbed(cfg, m, id) ==> Undisturbed(cfg, c, id) && Goal(cfg, c, id) == Goal(cfg, m, id))
  {
    hide PlanAt, CrashAt, MayRun, Skewed, Goal, ToPush, ToPull;
    forall id {
      CrashedSkillKeepsGoal(cfg, m, tr, k, id);
    }
  }

  /**
   A completed cycle reaches the goal of every undisturbed skill and the local goal of every other one, and the
   next cycle plans only no-ops.
   */
  lemma CompletedCycleReachesGoal(cfg: Config, m: Machine, tr: Trace)
    requires Executable(cfg, m, Idx(m)) && ValidTrace(cfg, m, Idx(m), tr)
    ensures
      var c := Completed(m, Idx(m), tr);
      forall id ::
        && LocalSide(c, id) == Goal(cfg, m, id).0
        && (Undisturbed(cfg, m, id) ==> RemoteSide(c, id) == Goal(cfg, m, id).1)
        && ActionOf(cfg, c, Idx(c), id) == Noop
  {
    hide PlanAt, CrashAt, Installable, Executable, Undisturbed;
    var c := Completed(m, Idx(m), tr);
    forall id
      ensures LocalSide(c, id) == Goal(cfg, m, id).0
      ensures Undisturbed(cfg, m, id) ==> RemoteSide(c, id) == Goal(cfg, m, id).1
      ensures ActionOf(cfg, c, Idx(c), id) == Noop
    {
      CrashedSkill(cfg, m, tr, tr.Total(), id);
      PullAndPushIds(cfg, m, Idx(m));
      PlannedSkill(cfg, m, id);
      assert tr.Total() == 0 ==> id !in tr.installs && id !in tr.puts;
    }
  }

  /**
   A completed cycle refines per-skill three-way merge: when no skill is skewed, local and remote hold the same
   hashes afterwards, and each is the merge of base, local and remote before.
   */
  lemma CompletedCycleIsMerge(cfg: Config, m: Machine, tr: Trace)
    requires Executable(cfg, m, Idx(m)) && ValidTrace(cfg, m, Idx(m), tr)
    requires forall id :: !Skewed(cfg, m, id)
    ensures
      var c := Completed(m, Idx(m), tr);
      && c.local == Hashes(Idx(c))
      && forall id :: Merge(Get(m.base, id), LocalSide(m, id), RemoteSide(m, id)) == Agreed(Get(c.local, id))
  {
    hide PlanAt, CrashAt, Installable, Executable, Completed, Idx;
    var c := Completed(m, Idx(m), tr);
    CompletedCycleReachesGoal(cfg, m, tr);
    forall id
      ensures Get(c.local, id) == Get(Hashes(Idx(c)), id)
      ensures Merge(Get(m.base, id), LocalSide(m, id), RemoteSide(m, id)) == Agreed(Get(c.local, id))
    {
      assert !Skewed(cfg, m, id) && Undisturbed(cfg, m, id);
      assert LocalSide(c, id) == Goal(cfg, m, id).0 && RemoteSide(c, id) == Goal(cfg, m, id).1;
      PlannedSkill(cfg, m, id);
    }
    SameLookups(c.local, Hashes(Idx(c)));
  }

  // ----- which skills keep a base entry ------------------------------------------------------------

  /** The base after a completed cycle: kept when nothing was done, everything published, or only what was pulled. */
  lemma BaseAfterCycle(cfg: Config, m: Machine, tr: Trace, id: SkillId)
    requires Executable(cfg, m, Idx(m)) && ValidTrace(cfg, m, Idx(m), tr)
    ensures
      var c := Completed(m, Idx(m), tr);
      Get(c.base, id) ==
        if tr.Total() == 0 then Get(m.base, id)
        else if PlansPush(cfg, m) || ToPull(cfg, m, Idx(m), id) then LocalSide(c, id) else None
  {
    hide PlanAt, CrashAt, Installable, Executable;
    CrashSides(cfg, m, Idx(m), tr, tr.Total(), id);
    PullAndPushIds(cfg, m, Idx(m));
    if tr.puts != [] {
      assert ToPush(cfg, m, Idx(m), tr.puts[0]);
    }
    assert Take(tr.installs, tr.Total()) == tr.installs;
    PulledIsListed(cfg, m, id);
  }

  lemma PulledIsListed(cfg: Config, m: Machine, id: SkillId)
    requires Executable(cfg, m, Idx(m))
    ensures ToPull(cfg, m, Idx(m), id) ==> id in Idx(m)
  {
    assert MayRun(cfg, m, Idx(m), id);
  }

  /**
   One side of a skill changes while the other still holds what both held: it is a conflict exactly when the base
   names neither version, and only the version both held makes it a plain pull or push.
   */
  lemma LaterEditConflictsIff(base: Option<Content>, x: Content, edited: Content)
    requires edited != x
    ensures ClassifyHashes(base, Some(x), Some(edited)) == Conflict <==> base != Some(x) && base != Some(edited)
    ensures ClassifyHashes(base, Some(x), Some(edited)) == Pull <==> base == Some(x)
    ensures ClassifyHashes(base, Some(edited), Some(x)) == Conflict <==> base != Some(x) && base != Some(edited)
    ensures ClassifyHashes(base, Some(edited), Some(x)) == Push <==> base == Some(x)
  {
  }

  /** A deletion on one side is noticed only when the base names the version; without a base entry it looks new. */
  lemma LaterDeletionIsNewsIff(base: Option<Content>, x: Content)
    requires base in {None, Some(x)}
    ensures ClassifyHashes(base, Some(x), None) == if base.None? then LocalNew else RemoteDeleted
    ensures ClassifyHashes(base, None, Some(x)) == if base.None? then RemoteNew else LocalDeleted
  {
  }

  /**
   After a completed cycle that did something, the next edit of an undisturbed skill, made on either side alone, is a
   conflict if and only if the cycle neither pushed anything nor pulled this skill: then its base entry is gone, and a
   deletion on one side looks like a new skill on the other.
   */
  lemma EditAfterCycleConflictsIff(cfg: Config, m: Machine, tr: Trace, id: SkillId, edited: Content)
    requires Executable(cfg, m, Idx(m)) && ValidTrace(cfg, m, Idx(m), tr) && tr.Total() > 0
    requires !Skewed(cfg, m, id) && LocalSide(Completed(m, Idx(m), tr), id) !in {None, Some(edited)}
    ensures
      var c := Completed(m, Idx(m), tr);
      var forgotten := !PlansPush(cfg, m) && !ToPull(cfg, m, Idx(m), id);
      && LocalSide(c, id) == RemoteSide(c, id)
      && (ClassifyHashes(Get(c.base, id), LocalSide(c, id), Some(edited)) == Conflict <==> forgotten)
      && (ClassifyHashes(Get(c.base, id), Some(edited), RemoteSide(c, id)) == Conflict <==> forgotten)
      && (ClassifyHashes(Get(c.base, id), LocalSide(c, id), Some(edited)) == Pull <==> !forgotten)
      && (ClassifyHashes(Get(c.base, id), Some(edited), RemoteSide(c, id)) == Push <==> !forgotten)
      && ClassifyHashes(Get(c.base, id), LocalSide(c, id), None) == (if forgotten then LocalNew else RemoteDeleted)
      && ClassifyHashes(Get(c.base, id), None, RemoteSide(c, id)) == (if forgotten then RemoteNew else LocalDeleted)
  {
    hide PlanAt, CrashAt, Installable, Executable, Completed, ClassifyHashes;
    var c := Completed(m, Idx(m), tr);
    BaseAfterCycle(cfg, m, tr, id);
    CompletedCycleReachesGoal(cfg, m, tr);
    PlannedSkill(cfg, m, id);
    assert Undisturbed(cfg, m, id);
    LaterEditConflictsIff(Get(c.base, id), LocalSide(c, id).value, edited);
    LaterDeletionIsNewsIff(Get(c.base, id), LocalSide(c, id).value);
  }

  // ----- repeated crashes --------------------------------------------------------------------------

  /** A cycle that stopped after `k` effects. */
  datatype Attempt = Attempt(tr: Trace, k: nat)

  ghost predicate ValidAttempts(cfg: Config, m: Machine, attempts: seq<Attempt>)
    decreases |attempts|
  {
    attempts == [] ||
    (ValidTrace(cfg, m, Idx(m), attempts[0].tr)
     && ValidAttempts(cfg, CrashAt(m, Idx(m), attempts[0].tr, attempts[0].k), attempts[1..]))
  }

  function AfterAttempts(m: Machine, attempts: seq<Attempt>): Machine
    decreases |attempts|
  {
    if attempts == [] then m
    else AfterAttempts(CrashAt(m, Idx(m), attempts[0].tr, attempts[0].k), attempts[1..])
  }

  lemma {:induction false} AttemptsKeepGoal(cfg: Config, m: Machine, attempts: seq<Attempt>)
    requires Executable(cfg, m, Idx(m)) && ValidAttempts(cfg, m, attempts)
    ensures
      var stopped := AfterAttempts(m, attempts);
      && Executable(cfg, stopped, Idx(stopped))
      && forall id ::
           && Goal(cfg, stopped, id).0 == Goal(cfg, m, id).0
           && (Undisturbed(cfg, m, id) ==> Undisturbed(cfg, stopped, id) && Goal(cfg, stopped, id) == Goal(cfg, m, id))
    decreases |attempts|
  {
    hide Executable, Goal, Undisturbed, ValidTrace, CrashAt;
    if attempts != [] {
      CrashIsRecoverable(cfg, m, attempts[0].tr, attempts[0].k);
      AttemptsKeepGoal(cfg, CrashAt(m, Idx(m), attempts[0].tr, attempts[0].k), attempts[1..]);
    }
  }

  /**
   However often a cycle is cut short, the re-run that completes leaves the local root that the uninterrupted cycle
   leaves, and the same remote content of every undisturbed skill.
   */
  lemma RerunsConverge(cfg: Config, m: Machine, attempts: seq<Attempt>, last: Trace, uninterrupted: Trace)
    requires Executable(cfg, m, Idx(m)) && ValidAttempts(cfg, m, attempts)
    requires ValidTrace(cfg, m, Idx(m), uninterrupted)
    requires ValidTrace(cfg, AfterAttempts(m, attempts), Idx(AfterAttempts(m, attempts)), last)
    ensures
      var stopped := AfterAttempts(m, attempts);
      var rerun, straight := Completed(stopped, Idx(stopped), last), Completed(m, Idx(m), uninterrupted);
      && rerun.local == straight.local
      && (forall id :: Undisturbed(cfg, m, id) ==> RemoteSide(rerun, id) == RemoteSide(straight, id))
      && ((forall id :: Undisturbed(cfg, m, id)) ==> Hashes(Idx(rerun)) == Hashes(Idx(straight)))
  {
    hide *;
    var stopped := AfterAttempts(m, attempts);
    AttemptsKeepGoal(cfg, m, attempts);
    CompletedCycleReachesGoal(cfg, stopped, last);
    CompletedCycleReachesGoal(cfg, m, uninterrupted);
    var rerun, straight := Completed(stopped, Idx(stopped), last), Completed(m, Idx(m), uninterrupted);
    forall id
      ensures LocalSide(rerun, id) == LocalSide(straight, id)
      ensures Undisturbed(cfg, m, id) ==> RemoteSide(rerun, id) == RemoteSide(straight, id)
    {
      assert Goal(cfg, stopped, id).0 == Goal(cfg, m, id).0;
    }
    SameSidesSameMaps(rerun, straight);
  }

  lemma SameSidesSameMaps(a: Machine, b: Machine)
    ensures (forall id :: LocalSide(a, id) == LocalSide(b, id)) ==> a.local == b.local
    ensures (forall id :: RemoteSide(a, id) == RemoteSide(b, id)) ==> Hashes(Idx(a)) == Hashes(Idx(b))
  {
    hide Idx;
    if forall id :: LocalSide(a, id) == LocalSide(b, id) {
      forall id
        ensures Get(a.local, id) == Get(b.local, id)
      {
        assert LocalSide(a, id) == LocalSide(b, id);
      }
      SameLookups(a.local, b.local);
    }
    if forall id :: RemoteSide(a, id) == RemoteSide(b, id) {
      forall id
        ensures Get(Hashes(Idx(a)), id) == Get(Hashes(Idx(b)), id)
      {
        assert RemoteSide(a, id) == RemoteSide(b, id);
      }
      SameLookups(Hashes(Idx(a)), Hashes(Idx(b)));
    }
  }

  /**
   Inside one install the source first removes the old skill and then renames the new one into place. A crash
   in that window is not recovered: a changed skill becomes a conflict, a new one is simply pulled again.
   */
  lemma TornInstallConflicts(base: Option<Content>, local: Option<Content>, remote: Option<Content>)
    requires ClassifyHashes(base, local, remote) in {Pull, RemoteNew}
    ensures ClassifyHashes(base, None, remote) == if base.Some? then Conflict else RemoteNew
  {
  }

  // ----- what goes wrong with skewed skills --------------------------------------------------------

  /**
   A push rebuilds the whole index from the local root, so it also publishes (or drops) every skewed skill: the
   remote side of a skill ends at its goal if and only if the skill is not skewed.
   */
  lemma PushOverwritesSkewedSkills(cfg: Config, m: Machine, tr: Trace, id: SkillId)
    requires Executable(cfg, m, Idx(m)) && ValidTrace(cfg, m, Idx(m), tr)
    requires tr.puts != []
    ensures RemoteSide(Completed(m, Idx(m), tr), id) == Goal(cfg, m, id).1 <==> !Skewed(cfg, m, id)
  {
    hide PlanAt, CrashAt, Installable, Executable;
    CrashSides(cfg, m, Idx(m), tr, tr.Total(), id);
    PullAndPushIds(cfg, m, Idx(m));
    PlannedSkill(cfg, m, id);
  }
}
