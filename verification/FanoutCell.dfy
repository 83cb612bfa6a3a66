/**
 The fan-out executor and its rollback, seen from one entry name.

 Every primitive of an item (copying a tree, moving it, renaming, linking, unlinking) may fail; a set of
 failing primitives is the fault oracle of one item, since no item calls the same primitive twice.
 Executing an item touches only its own cell: the entry, its ledger line, its backup and its hidden
 temporary name.
 */
module FanoutCell {
  import opened Common
  import opened FanoutPlan

  datatype Prim =
    | ReadLink | CopyTree | MakeTempLink | ReplaceTemp | MoveToBackup | RenameTemp | Unlink   // forward steps
    | MoveBack | Symlink | RemoveTemp                                                         // recovery steps

  datatype Cell = Cell(entry: Option<Node>, recorded: Option<Hash>, backup: Option<Node>, temp: Option<Node>)

  /** What the run record keeps about one executed item. */
  datatype Done = Done(name: Name, action: Action, contentHash: Option<Hash>, backedUp: bool, oldLink: Option<Raw>)

  function DoneFor(item: Item): Done {
    Done(item.name, item.action, item.contentHash, false, None)
  }

  /** Makes the entry a link through a temporary one; a directory in the way makes the replace fail. */
  function SwapLink(c: Cell, raw: Raw, f: set<Prim>): (Cell, bool) {
    if MakeTempLink in f then (c.(temp := None), false)
    else if ReplaceTemp in f || (c.entry.Some? && c.entry.value.Dir?) then (c.(temp := Some(Link(raw))), false)
    else (c.(entry := Some(Link(raw)), temp := None), true)
  }

  /** Copies the canonical tree to the temporary name. */
  function CopyInto(c: Cell, tree: Option<Tree>, f: set<Prim>): (Cell, bool) {
    if CopyTree in f || tree.None? then (c.(temp := None), false)
    else (c.(temp := Some(Dir(tree.value))), true)
  }

  function DropTemp(c: Cell, f: set<Prim>): Cell {
    if RemoveTemp in f then c else c.(temp := None)
  }

  function Exec(item: Item, c: Cell, f: set<Prim>): (Cell, Option<Done>) {
    var done := DoneFor(item);
    match item.action
    case LinkNew =>
      if c.entry.Some? then (c, None)
      else
        var (c1, ok) := SwapLink(c, item.source, f);
        (c1, if ok then Some(done) else None)
    case Relink =>
      if ReadLink in f || c.entry.None? || !c.entry.value.Link? then (c, None)
      else
        var (c1, ok) := SwapLink(c, item.source, f);
        (c1, if ok then Some(done.(oldLink := Some(c.entry.value.raw))) else None)
    case ReplaceDirWithLink =>
      if MoveToBackup in f || c.entry.None? then (c, None)
      else
        var (c1, ok) := SwapLink(c.(entry := None, backup := c.entry), item.source, f);
        if ok then (c1, Some(done.(backedUp := true)))
        else if MoveBack in f then (c1, None)
        else (c1.(entry := c1.backup, backup := None), None)
    case CopyNew => (
      var (c1, ok) := CopyInto(c, item.tree, f);
      if !ok then (c1, None)
      else if c1.entry.Some? || RenameTemp in f then (DropTemp(c1, f), None)
      else (c1.(entry := c1.temp, temp := None, recorded := item.contentHash), Some(done))
    )
    case UpdateCopy => (
      var (c1, ok) := CopyInto(c, item.tree, f);
      if !ok then (c1, None)
      else if MoveToBackup in f || c1.entry.None? then (DropTemp(c1, f), None)
      else
        var c2 := c1.(entry := None, backup := c1.entry);
        if RenameTemp in f then
          if MoveBack in f then (c2, None)
          else (DropTemp(c2.(entry := c2.backup, backup := None), f), None)
        else (c2.(entry := c2.temp, temp := None, recorded := item.contentHash), Some(done.(backedUp := true)))
    )
    case Adopt => (c.(recorded := item.contentHash), Some(done))
    case ReplaceLinkWithCopy =>
      if ReadLink in f || c.entry.None? || !c.entry.value.Link? then (c, None)
      else
        var raw := c.entry.value.raw;
        var (c1, ok) := CopyInto(c, item.tree, f);
        if !ok || Unlink in f then (c1, None)
        else
          var c2 := c1.(entry := None);
          if RenameTemp in f then
            if Symlink in f then (c2, None)
            else (DropTemp(c2.(entry := Some(Link(raw))), f), None)
          else (c2.(entry := c2.temp, temp := None, recorded := item.contentHash), Some(done.(oldLink := Some(raw))))
    case RemoveDanglingLink =>
      if ReadLink in f || c.entry.None? || !c.entry.value.Link? || Unlink in f then (c, None)
      else (c.(entry := None), Some(done.(oldLink := Some(c.entry.value.raw))))
    case RemoveCopy =>
      if MoveToBackup in f || c.entry.None? then (c, None)
      else (c.(entry := None, backup := c.entry, recorded := None), Some(done.(backedUp := true)))
    case _ => (c, None)
  }

  predicate PlacesLink(a: Action) { a == LinkNew || a == Relink || a == ReplaceDirWithLink }
  predicate PlacesCopy(a: Action) { a == CopyNew || a == UpdateCopy || a == ReplaceLinkWithCopy }

  /** Whether the entry is still what the recorded run left there. */
  predicate StillOurs(w: World, done: Done, entry: Option<Node>) {
    if PlacesLink(done.action) then
      entry.Some? && entry.value.Link? && w.LinkOf(entry.value.raw).place.InCanonical?
    else if PlacesCopy(done.action) then
      entry.Some? && entry.value.Dir? && entry.value.tree.ScanHash() == done.contentHash
    else entry.None? || done.action == Adopt
  }

  /** Undoing one executed item; the flag says whether the entry was restored or skipped as changed. */
  function Undo(w: World, done: Done, c: Cell): (Cell, bool) {
    if !StillOurs(w, done, c.entry) then (c, false)
    else
      var c1 := if PlacesLink(done.action) || PlacesCopy(done.action) then c.(entry := None) else c;
      var c2 := if done.backedUp && c1.backup.Some? then c1.(entry := c1.backup, backup := None) else c1;
      var c3 := if done.oldLink.Some? && c2.entry.None? then c2.(entry := Some(Link(done.oldLink.value))) else c2;
      (c3, true)
  }

  /** The entry is no longer what the recorded item left: its link or copy was replaced, or something is there again. */
  predicate ChangedSince(w: World, done: Done, entry: Option<Node>) {
    match done.action
    case LinkNew => !LinksToCanonical(w, entry)
    case Relink => !LinksToCanonical(w, entry)
    case ReplaceDirWithLink => !LinksToCanonical(w, entry)
    case CopyNew => !HoldsCopy(entry, done.contentHash)
    case UpdateCopy => !HoldsCopy(entry, done.contentHash)
    case ReplaceLinkWithCopy => !HoldsCopy(entry, done.contentHash)
    case RemoveDanglingLink => entry.Some?
    case RemoveCopy => entry.Some?
    case _ => false
  }

  predicate LinksToCanonical(w: World, entry: Option<Node>) {
    entry.Some? && entry.value.Link? && w.LinkOf(entry.value.raw).place.InCanonical?
  }

  predicate HoldsCopy(entry: Option<Node>, hash: Option<Hash>) {
    entry.Some? && entry.value.Dir? && entry.value.tree.ScanHash() == hash
  }

  /** Undoing a recorded item leaves a changed entry exactly as found. */
  lemma ChangedEntryIsKept(w: World, tool: Tool, name: Name, before: Cell, f: set<Prim>, later: World, c: Cell)
    requires w.WellFormed()
    requires RunName(w, tool, name, before, f).1.Some?
    ensures
      var done := RunName(w, tool, name, before, f).1.value;
      && (ChangedSince(later, done, c.entry) ==> Undo(later, done, c) == (c, false))
      && (!ChangedSince(later, done, c.entry) ==> Undo(later, done, c).1)
  {
    hide RunName;
    RecordedAction(w, tool, name, before, f);
  }

  /** Undoing an unchanged one brings back what was there before the run; an adopted copy was never touched. */
  lemma UnchangedEntryIsRestored(w: World, tool: Tool, name: Name, before: Cell, f: set<Prim>, later: World, c: Cell)
    requires w.WellFormed() && Fresh(before)
    requires RunName(w, tool, name, before, f).1.Some?
    requires c.backup == RunName(w, tool, name, before, f).0.backup
    ensures
      var done := RunName(w, tool, name, before, f).1.value;
      !ChangedSince(later, done, c.entry) ==>
        Undo(later, done, c).0.entry == if done.action == Adopt then c.entry else before.entry
  {
    hide RunName;
    var (c1, done) := RunName(w, tool, name, before, f);
    UndoInvertsItem(w, tool, name, before, f);
    RecordedAction(w, tool, name, before, f);
    if !ChangedSince(later, done.value, c.entry) {
      UndoReadsRecord(w, later, done.value, c1, c);
    }
  }

  lemma RecordedAction(w: World, tool: Tool, name: Name, c: Cell, f: set<Prim>)
    requires w.WellFormed() && RunName(w, tool, name, c, f).1.Some?
    ensures
      var done := RunName(w, tool, name, c, f).1.value;
      !IsNoop(done.action) && (done.action == Adopt ==> !done.backedUp && done.oldLink.None?)
  {
  }

  /** What undoing an unchanged entry brings back depends on the record and the backup only. */
  lemma UndoReadsRecord(w: World, later: World, done: Done, c: Cell, c': Cell)
    requires !IsNoop(done.action) && (done.action == Adopt ==> !done.backedUp && done.oldLink.None?)
    requires c.backup == c'.backup && Undo(w, done, c).1 && !ChangedSince(later, done, c'.entry)
    ensures Undo(later, done, c').0.entry == if done.action == Adopt then c'.entry else Undo(w, done, c).0.entry
  {
  }

  /** A step failed and the step meant to put the entry back failed too. */
  predicate DoubleFault(a: Action, f: set<Prim>) {
    match a
    case ReplaceDirWithLink => MoveToBackup !in f && (MakeTempLink in f || ReplaceTemp in f) && MoveBack in f
    case UpdateCopy => CopyTree !in f && MoveToBackup !in f && RenameTemp in f && MoveBack in f
    case ReplaceLinkWithCopy => ReadLink !in f && CopyTree !in f && Unlink !in f && RenameTemp in f && Symlink in f
    case _ => false
  }

  /** A cell before a run: the run id is fresh, so it has neither a backup nor a temporary yet. */
  predicate Fresh(c: Cell) {
    c.backup.None? && c.temp.None?
  }

  /** One name's share of a run: plan it, then execute the item unless it is a no-op. */
  function RunName(w: World, tool: Tool, name: Name, c: Cell, f: set<Prim>): (Cell, Option<Done>)
    requires w.WellFormed()
  {
    var item := PlanName(w, tool, name, c.entry, c.recorded);
    if item.Some? && !IsNoop(item.value.action) then Exec(item.value, c, f) else (c, None)
  }

  function ActionAt(w: World, tool: Tool, name: Name, c: Cell): Action
    requires w.WellFormed()
  {
    var item := PlanName(w, tool, name, c.entry, c.recorded);
    if item.Some? then item.value.action else Okay
  }

  /** Rollback is the exact inverse of every executed item, for every planned item and every fault set. */
  lemma UndoInvertsItem(w: World, tool: Tool, name: Name, c: Cell, f: set<Prim>)
    requires w.WellFormed() && Fresh(c)
    requires RunName(w, tool, name, c, f).1.Some?
    ensures
      var (c1, done) := RunName(w, tool, name, c, f);
      var (c2, restored) := Undo(w, done.value, c1);
      restored && c2.entry == c.entry && c2.backup.None? && c2.temp.None?
  {
  }

  /** An item that fails leaves its entry and its ledger line alone, unless its own recovery step failed too. */
  lemma FailedItemKeepsEntry(w: World, tool: Tool, name: Name, c: Cell, f: set<Prim>)
    requires w.WellFormed() && Fresh(c)
    requires RunName(w, tool, name, c, f).1.None?
    ensures RunName(w, tool, name, c, f).0.recorded == c.recorded
    ensures RunName(w, tool, name, c, f).0.entry == c.entry <==> !DoubleFault(ActionAt(w, tool, name, c), f)
  {
  }

  /** The steps an action needs; failing recovery steps do not keep it from being executed. */
  function NeededPrims(a: Action): set<Prim> {
    match a
    case LinkNew => {MakeTempLink, ReplaceTemp}
    case Relink => {ReadLink, MakeTempLink, ReplaceTemp}
    case ReplaceDirWithLink => {MoveToBackup, MakeTempLink, ReplaceTemp}
    case CopyNew => {CopyTree, RenameTemp}
    case UpdateCopy => {CopyTree, MoveToBackup, RenameTemp}
    case ReplaceLinkWithCopy => {ReadLink, CopyTree, Unlink, RenameTemp}
    case RemoveDanglingLink => {ReadLink, Unlink}
    case RemoveCopy => {MoveToBackup}
    case _ => {}
  }

  /** A planned item is executed if and only if it is not a no-op and no step it needs fails. */
  lemma ExecutedIff(w: World, tool: Tool, name: Name, c: Cell, f: set<Prim>)
    requires w.WellFormed() && Fresh(c)
    ensures RunName(w, tool, name, c, f).1.Some? <==>
              && !IsNoop(ActionAt(w, tool, name, c))
              && forall p :: p in NeededPrims(ActionAt(w, tool, name, c)) ==> p !in f
  {
  }

  /** The planner's licence to displace a directory: it equals the canonical skill, or it is the recorded copy. */
  predicate Licensed(w: World, name: Name, tree: Tree, recorded: Option<Hash>) {
    || (name in w.skills
        && (|| tree.ScanHash() == w.skills[name].tree.ScanHash()
            || tree.AdoptionHash() == w.skills[name].tree.AdoptionHash()))
    || (recorded.Some? && tree.ScanHash() == recorded)
  }

  /** Whatever fails, a directory leaves its entry only with a licence and only into the run's backup. */
  lemma DirectoryIsNeverLost(w: World, tool: Tool, name: Name, c: Cell, f: set<Prim>)
    requires w.WellFormed() && Fresh(c)
    requires c.entry.Some? && c.entry.value.Dir?
    ensures
      var c1 := RunName(w, tool, name, c, f).0;
      c1.entry == c.entry || (Licensed(w, name, c.entry.value.tree, c.recorded) && c1.backup == c.entry)
  {
  }

  /** A link leaves its entry only into the run record, except under a double fault; a file never leaves. */
  lemma LinkIsRecorded(w: World, tool: Tool, name: Name, c: Cell, f: set<Prim>)
    requires w.WellFormed() && Fresh(c)
    requires c.entry.Some? && !c.entry.value.Dir?
    ensures
      var (c1, done) := RunName(w, tool, name, c, f);
      || c1.entry == c.entry
      || (c.entry.value.Link? && (DoubleFault(ActionAt(w, tool, name, c), f)
                                  || (done.Some? && done.value.oldLink == Some(c.entry.value.raw))))
  {
  }

  /** Foreign links and conflicting entries are left exactly as they were. */
  lemma UnlicensedEntryIsUntouched(w: World, tool: Tool, name: Name, c: Cell, f: set<Prim>)
    requires w.WellFormed()
    requires c.entry.Some?
    requires match c.entry.value
             case File(_) => true
             case Dir(tree) => !Licensed(w, name, tree, c.recorded)
             case Link(raw) =>
               var info := w.LinkOf(raw);
               && !info.place.InCanonical?
               && !(info.lexical && !info.resolves)
               && (info.place.InAdoptable? && name in w.skills ==>
                     && info.place.tree.ScanHash() != w.skills[name].tree.ScanHash()
                     && info.place.tree.AdoptionHash() != w.skills[name].tree.AdoptionHash())
    ensures RunName(w, tool, name, c, f) == (c, None)
  {
  }

  /** Skills no tool may get: bundled inside another skill, bound to a project, or flagged by the risk scan. */
  predicate Unplaceable(skill: Skill) {
    !skill.topLevel || !skill.global || skill.riskError
  }

  /**
   A rejected skill is never placed: for a skill that no tool may get, that is declared for other tools, or that
   declares no tools and is not there yet, a run leaves the entry alone or removes it.
   */
  lemma RejectedSkillIsNeverPlaced(w: World, tool: Tool, name: Name, c: Cell, f: set<Prim>)
    requires w.WellFormed() && Fresh(c) && name in w.skills
    requires
      var skill := w.skills[name];
      || Unplaceable(skill)
      || (skill.declared.Some? && tool.aliases * skill.declared.value == {})
      || (skill.declared.None? && c.entry.None?)
    ensures
      var c1 := RunName(w, tool, name, c, f).0;
      c1.entry == c.entry || c1.entry.None?
  {
  }

  /** The entry is the canonical skill: a link that resolves to it, or a recorded copy with its hash. */
  predicate IsCanonical(w: World, mode: Mode, name: Name, c: Cell)
    requires name in w.skills
  {
    match c.entry
    case Some(Link(raw)) => mode.LinkMode? && w.LinkOf(raw).place == InCanonical(name)
    case Some(Dir(tree)) => mode.CopyMode? && tree.ScanHash() == w.skills[name].tree.ScanHash() == c.recorded
    case _ => false
  }

  /** An entry the planner calls okay is the canonical skill, and the other way round. */
  lemma OkayEntryIsCanonical(w: World, tool: Tool, name: Name, c: Cell)
    requires w.WellFormed() && Wanted(w, tool, name, c.entry)
    ensures ActionAt(w, tool, name, c) == Okay <==> IsCanonical(w, tool.mode, name, c)
  {
  }
}
