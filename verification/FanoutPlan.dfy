/**
 The fan-out planner: what each entry of a tool's skill directory should become.

 A tool directory maps entry names to nodes. A copied directory can be recognised only through the
 ledger (entry name -> tree hash recorded when the copy was installed or adopted).
 */
module FanoutPlan {
  import opened Common

  type ToolId = string
  type Name = string
  type Raw = string   // the text of a symbolic link
  type Hash = string

  /** A directory tree with the two digests the planner compares. Both exist exactly when the tree holds a SKILL.md. */
  datatype Digests = Digests(scan: Hash, adoption: Hash)
  datatype Tree = Tree(bytes: string, digests: Option<Digests>)
  {
    function ScanHash(): Option<Hash> {
      if digests.Some? then Some(digests.value.scan) else None
    }

    function AdoptionHash(): Option<Hash> {
      if digests.Some? then Some(digests.value.adoption) else None
    }
  }

  datatype Node = Link(raw: Raw) | Dir(tree: Tree) | File(bytes: string)

  /** Where following a link ends. */
  datatype Place = InCanonical(name: Name) | InAdoptable(tree: Tree) | Elsewhere

  /** `lexical`: the link text lies in the canonical root without following links; `resolves`: it is not dangling. */
  datatype LinkInfo = LinkInfo(place: Place, lexical: bool, resolves: bool)

  datatype Mode = LinkMode | CopyMode
  datatype Tool = Tool(id: ToolId, mode: Mode, aliases: set<string>, usable: bool)

  datatype Skill = Skill(name: Name, source: Raw, tree: Tree, topLevel: bool, global: bool, riskError: bool,
                         declared: Option<set<string>>)

  /** The canonical root (its top-level skills by directory name) and what link texts resolve to. */
  datatype World = World(skills: map<Name, Skill>, links: map<Raw, LinkInfo>)
  {
    function LinkOf(raw: Raw): LinkInfo {
      if raw in links then links[raw] else LinkInfo(Elsewhere, false, false)
    }

    ghost predicate WellFormed() {
      forall n :: n in skills ==>
        && skills[n].name == n
        && skills[n].topLevel
        && skills[n].tree.digests.Some?
        && LinkOf(skills[n].source) == LinkInfo(InCanonical(n), true, true)
    }
  }

  datatype Action =
    | LinkNew | Relink | ReplaceDirWithLink
    | CopyNew | UpdateCopy | Adopt | ReplaceLinkWithCopy
    | RemoveDanglingLink | RemoveCopy
    | Okay | Conflict | ForeignLink

  predicate IsNoop(a: Action) {
    a == Okay || a == Conflict || a == ForeignLink
  }

  datatype Item = Item(name: Name, action: Action, contentHash: Option<Hash>, source: Raw, tree: Option<Tree>)

  datatype Reason = InsideAnotherSkill | ProjectScope | RiskError | UndeclaredNotPresent | NotTargeted

  /** Why a skill is not placed into a tool; `None` places it. */
  function SkillDecision(skill: Skill, tool: Tool, present: bool): Option<Reason> {
    if !skill.topLevel then Some(InsideAnotherSkill)
    else if !skill.global then Some(ProjectScope)
    else if skill.riskError then Some(RiskError)
    else match skill.declared
      case None => if present then None else Some(UndeclaredNotPresent)
      case Some(targets) => if tool.aliases * targets != {} then None else Some(NotTargeted)
  }

  predicate SameContent(entry: Tree, source: Tree) {
    entry.ScanHash() == source.ScanHash() || entry.AdoptionHash() == source.AdoptionHash()
  }

  function PlanEntry(w: World, skill: Skill, mode: Mode, node: Option<Node>, recorded: Option<Hash>): (item: Item)
    ensures item.name == skill.name && item.source == skill.source && item.tree == Some(skill.tree)
  {
    var canonical := skill.tree.ScanHash();
    var base := Item(skill.name, Okay, canonical, skill.source, Some(skill.tree));
    match node
    case None =>
      base.(action := if mode.LinkMode? then LinkNew else CopyNew)
    case Some(Link(raw)) => (
      var take := if mode.LinkMode? then Relink else ReplaceLinkWithCopy;
      match w.LinkOf(raw).place
      case InCanonical(n) =>
        if n == skill.name then base.(action := if mode.LinkMode? then Okay else ReplaceLinkWithCopy)
        else base.(action := take)
      case InAdoptable(tree) =>
        base.(action := if SameContent(tree, skill.tree) then take else Conflict)
      case Elsewhere => base.(action := ForeignLink)
    )
    case Some(File(_)) => base.(action := Conflict)
    case Some(Dir(tree)) =>
      if mode.LinkMode? then
        base.(action := if SameContent(tree, skill.tree) then ReplaceDirWithLink else Conflict)
      else
        var current := tree.ScanHash();
        if current == canonical || (recorded.None? && SameContent(tree, skill.tree)) then
          base.(action := if recorded == current then Okay else Adopt, contentHash := current)
        else if recorded.Some? && recorded == current then
          base.(action := UpdateCopy)
        else
          base.(action := Conflict)
  }

  predicate Hidden(n: Name) {
    |n| > 0 && n[0] == '.'
  }

  /** The removal pass, for an entry no skill of the canonical root claims. */
  function PlanRemoval(w: World, mode: Mode, name: Name, node: Option<Node>, recorded: Option<Hash>): Option<Item> {
    if Hidden(name) || node.None? then None
    else match node.value
      case Link(raw) =>
        if w.LinkOf(raw).lexical && !w.LinkOf(raw).resolves
        then Some(Item(name, RemoveDanglingLink, None, "", None)) else None
      case Dir(tree) =>
        if mode.CopyMode? && recorded.Some? then
          Some(Item(name, if tree.ScanHash() == recorded then RemoveCopy else Conflict, None, "", None))
        else None
      case File(_) => None
  }

  predicate Wanted(w: World, tool: Tool, name: Name, node: Option<Node>) {
    name in w.skills && SkillDecision(w.skills[name], tool, node.Some?).None?
  }

  /** The plan for one entry name. */
  function PlanName(w: World, tool: Tool, name: Name, node: Option<Node>, recorded: Option<Hash>): (r: Option<Item>)
    requires w.WellFormed()
    ensures r.Some? ==> r.value.name == name
  {
    if Wanted(w, tool, name, node) then Some(PlanEntry(w, w.skills[name], tool.mode, node, recorded))
    else PlanRemoval(w, tool.mode, name, node, recorded)
  }
}
