/** From statuses to planned actions under a writer policy. */
module SyncPlan {
  import opened Common
  import opened SyncState

  datatype WriterPolicy = PushPull | PullOnly | PushOnly | NoWrites

  datatype PlanAction = Noop | PullSkill | PullNew | PushSkill | PushNew | DeleteLocal | DeprecateRemote | Blocked

  datatype PlanItem = PlanItem(status: Status, action: PlanAction, allowed: bool)

  function PlanStatus(s: Status, allowNew: bool, allowDelete: bool): PlanItem {
    match s
    case LocalOnly => PlanItem(s, Noop, true)
    case LocalOverride => PlanItem(s, Noop, true)
    case Unchanged => PlanItem(s, Noop, true)
    case AlreadyConverged => PlanItem(s, Noop, true)
    case CentralDeprecated => PlanItem(s, Noop, true)
    case DeletedBoth => PlanItem(s, Noop, true)
    case SameWithoutBase => PlanItem(s, Noop, true)
    case Pull => PlanItem(s, PullSkill, true)
    case Push => PlanItem(s, PushSkill, true)
    case RemoteNew => PlanItem(s, if allowNew then PullNew else Blocked, allowNew)
    case LocalNew => PlanItem(s, if allowNew then PushNew else Blocked, allowNew)
    case RemoteDeleted => PlanItem(s, if allowDelete then DeleteLocal else Blocked, allowDelete)
    case LocalDeleted => PlanItem(s, if allowDelete then DeprecateRemote else Blocked, allowDelete)
    case Conflict => PlanItem(s, Blocked, false)
  }

  function PolicyAllows(policy: WriterPolicy): set<PlanAction> {
    match policy
    case PushPull => {Noop, PullSkill, PullNew, PushSkill, PushNew, DeleteLocal, DeprecateRemote, Blocked}
    case PullOnly => {Noop, PullSkill, PullNew, Blocked}
    case PushOnly => {Noop, PushSkill, PushNew, Blocked}
    case NoWrites => {Noop, Blocked}
  }

  function ApplyWriterPolicy(item: PlanItem, policy: WriterPolicy): PlanItem {
    if !item.allowed || item.action in PolicyAllows(policy) then item
    else PlanItem(item.status, Blocked, false)
  }

  datatype Config = Config(allowNew: bool, allowDelete: bool, policy: WriterPolicy,
                           overrides: map<SkillId, Override>, target: Target)

  function PlanSkill(cfg: Config, id: SkillId, base: Option<Content>, local: Option<Content>,
                     remote: Option<Entry>): PlanItem {
    ApplyWriterPolicy(
      PlanStatus(ClassifyWithOverride(base, local, remote, Get(cfg.overrides, id)), cfg.allowNew, cfg.allowDelete),
        cfg.policy)
  }

  predicate IsPull(a: PlanAction) { a == PullSkill || a == PullNew }
  predicate IsPush(a: PlanAction) { a == PushSkill || a == PushNew }

  /** What an executable plan item says about the three sides, and what each policy rules out. */
  lemma PlannedActionMeans(cfg: Config, id: SkillId, base: Option<Content>, local: Option<Content>,
                           remote: Option<Entry>)
    ensures
      var item := PlanSkill(cfg, id, base, local, remote);
      && (item.allowed <==> item.action != Blocked)
      && (IsPull(item.action) ==>
            local == base && remote.Some? && ContentOf(remote) != local && cfg.policy in {PushPull, PullOnly})
      && (IsPush(item.action) ==>
            && ContentOf(remote) == base && local.Some? && ContentOf(remote) != local
            && cfg.policy in {PushPull, PushOnly})
      && (item.action == Noop && !IsSpecial(item.status) ==> ContentOf(remote) == local)
      && (item.action == PullNew || item.action == PushNew ==> cfg.allowNew && base.None?)
      && (item.action == DeleteLocal ==> cfg.allowDelete && local == base && local.Some? && ContentOf(remote).None?)
      && (item.action == DeprecateRemote ==>
            cfg.allowDelete && ContentOf(remote) == base && remote.Some? && local.None?)
  {
  }

  /** The planned action, as a table over status, admission and policy; whatever else is asked for is blocked. */
  lemma ActionByStatus(cfg: Config, id: SkillId, base: Option<Content>, local: Option<Content>,
                       remote: Option<Entry>)
    ensures
      var s := ClassifyWithOverride(base, local, remote, Get(cfg.overrides, id));
      var item := PlanSkill(cfg, id, base, local, remote);
      var pulls, pushes := cfg.policy in {PushPull, PullOnly}, cfg.policy in {PushPull, PushOnly};
      && item.status == s
      && (item.allowed <==> item.action != Blocked)
      && (item.action == PullSkill <==> s == Pull && pulls)
      && (item.action == PullNew <==> s == RemoteNew && cfg.allowNew && pulls)
      && (item.action == PushSkill <==> s == Push && pushes)
      && (item.action == PushNew <==> s == LocalNew && cfg.allowNew && pushes)
      && (item.action == DeleteLocal <==> s == RemoteDeleted && cfg.allowDelete && cfg.policy == PushPull)
      && (item.action == DeprecateRemote <==> s == LocalDeleted && cfg.allowDelete && cfg.policy == PushPull)
      && (item.action == Noop <==>
            s !in {Pull, Push, RemoteNew, LocalNew, RemoteDeleted, LocalDeleted, Conflict})
  {
    hide ClassifyWithOverride;
  }

  // ----- which targets accept a pulled skill ------------------------------------------------------

  datatype Target =
    | CcSwitchGlobal | SkillshubGlobal | CodexGlobal | CursorGlobal | ClaudeCodeGlobal | QoderGlobal
    | DeepseekHarnessGlobal | CodexProject | MixedScopeRoot

  function AllowedScopes(t: Target): set<Scope> {
    match t
    case MixedScopeRoot => {GlobalScope, ProjectScope}
    case CodexProject => {ProjectScope}
    case _ => {GlobalScope}
  }

  function TargetAliases(t: Target): set<string> {
    match t
    case CcSwitchGlobal => {"cc-switch"}
    case SkillshubGlobal => {"skillshub"}
    case CodexGlobal => {"codex"}
    case CursorGlobal => {"cursor"}
    case ClaudeCodeGlobal => {"claude-code", "claude"}
    case QoderGlobal => {"qoder"}
    case DeepseekHarnessGlobal => {"deepseek-harness", "deepseek"}
    case CodexProject => {"codex"}
    case MixedScopeRoot => {}
  }

  predicate TargetsTool(targets: set<string>, t: Target) {
    TargetAliases(t) == {} || targets == {} || targets * TargetAliases(t) != {}
  }

  predicate Installable(c: Content, t: Target) {
    c.scope in AllowedScopes(t) && TargetsTool(c.targets, t)
  }

  /** Every target takes one scope only, but the mixed root, and a skill that names it or names no tool. */
  lemma InstallableByTarget(c: Content, t: Target)
    ensures
      Installable(c, t) <==>
        match t
        case MixedScopeRoot => c.scope == GlobalScope || c.scope == ProjectScope
        case CodexProject => c.scope == ProjectScope && (c.targets == {} || "codex" in c.targets)
        case CcSwitchGlobal => c.scope == GlobalScope && (c.targets == {} || "cc-switch" in c.targets)
        case SkillshubGlobal => c.scope == GlobalScope && (c.targets == {} || "skillshub" in c.targets)
        case CodexGlobal => c.scope == GlobalScope && (c.targets == {} || "codex" in c.targets)
        case CursorGlobal => c.scope == GlobalScope && (c.targets == {} || "cursor" in c.targets)
        case ClaudeCodeGlobal =>
          c.scope == GlobalScope && (c.targets == {} || "claude-code" in c.targets || "claude" in c.targets)
        case QoderGlobal => c.scope == GlobalScope && (c.targets == {} || "qoder" in c.targets)
        case DeepseekHarnessGlobal =>
          c.scope == GlobalScope
          && (c.targets == {} || "deepseek-harness" in c.targets || "deepseek" in c.targets)
  {
    match t
    case CcSwitchGlobal => SharesOne(c.targets, "cc-switch");
    case SkillshubGlobal => SharesOne(c.targets, "skillshub");
    case CodexGlobal => SharesOne(c.targets, "codex");
    case CursorGlobal => SharesOne(c.targets, "cursor");
    case ClaudeCodeGlobal => SharesEither(c.targets, "claude-code", "claude");
    case QoderGlobal => SharesOne(c.targets, "qoder");
    case DeepseekHarnessGlobal => SharesEither(c.targets, "deepseek-harness", "deepseek");
    case CodexProject => SharesOne(c.targets, "codex");
    case MixedScopeRoot =>
  }

  lemma SharesOne(targets: set<string>, alias: string)
    ensures targets * {alias} != {} <==> alias in targets
  {
    if alias in targets {
      assert alias in targets * {alias};
    }
  }

  lemma SharesEither(targets: set<string>, a: string, b: string)
    ensures targets * {a, b} != {} <==> a in targets || b in targets
  {
    if a in targets {
      assert a in targets * {a, b};
    }
    if b in targets {
      assert b in targets * {a, b};
    }
  }

  // ----- the plan of a whole status ---------------------------------------------------------------

  datatype Plan = Plan(items: map<SkillId, PlanItem>, blocked: nat)

  function Ids(base: Skills, local: Skills, index: Index): set<SkillId> {
    base.Keys + local.Keys + index.Keys
  }

  function PlanAt(cfg: Config, base: Skills, local: Skills, index: Index, id: SkillId): PlanItem {
    PlanSkill(cfg, id, Get(base, id), Get(local, id), Get(index, id))
  }

  function StoppedIds(items: map<SkillId, PlanItem>): set<SkillId> {
    set id | id in items && !items[id].allowed
  }

  /** Classifies and plans every skill known to any side. */
  method BuildSyncPlan(cfg: Config, base: Skills, local: Skills, index: Index) returns (plan: Plan)
    ensures plan.items.Keys == Ids(base, local, index)
    ensures forall id :: id in plan.items ==> plan.items[id] == PlanAt(cfg, base, local, index, id)
    ensures plan.blocked == |StoppedIds(plan.items)|
  {
    hide PlanAt;
    var items: map<SkillId, PlanItem> := map[];
    var blocked := 0;
    var remaining := Ids(base, local, index);
    while remaining != {}
      invariant remaining <= Ids(base, local, index)
      invariant forall id :: id in items <==> id in Ids(base, local, index) && id !in remaining
      invariant forall id :: id in items ==> items[id] == PlanAt(cfg, base, local, index, id)
      invariant blocked == |StoppedIds(items)|
    {
      var id :| id in remaining;
      remaining := remaining - {id};
      var item := PlanAt(cfg, base, local, index, id);
      assert StoppedIds(items[id := item]) == if item.allowed then StoppedIds(items) else StoppedIds(items) + {id};
      if !item.allowed {
        blocked := blocked + 1;
      }
      items := items[id := item];
    }
    plan := Plan(items, blocked);
  }
}
