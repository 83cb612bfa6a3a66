/** Whole fan-out runs over one tool directory, and sequences of runs with edits between them. */
module FanoutRuns {
  import opened Common
  import opened FanoutPlan
  import opened FanoutCell

  /** A tool's directory and its ledger. */
  datatype Root = Root(entries: map<Name, Node>, ledger: map<Name, Hash>)
  {
    function CellAt(n: Name): Cell {
      Cell(Get(entries, n), Get(ledger, n), None, None)
    }
  }

  type Faults = map<Name, set<Prim>>

  function FaultsAt(faults: Faults, n: Name): set<Prim> {
    if n in faults then faults[n] else {}
  }

  function NameAfter(w: World, tool: Tool, root: Root, faults: Faults, n: Name): (Cell, Option<Done>)
    requires w.WellFormed()
  {
    RunName(w, tool, n, root.CellAt(n), FaultsAt(faults, n))
  }

  /** What a run leaves: the new root, the run's backups and the executed part of its record. */
  datatype Outcome = Outcome(root: Root, backups: map<Name, Node>, executed: map<Name, Done>)

  function RunRoot(w: World, tool: Tool, root: Root, faults: Faults): (o: Outcome)
    requires w.WellFormed()
  {
    var names := root.entries.Keys + root.ledger.Keys + w.skills.Keys;
    Outcome(
      Root(
        map n | n in names && NameAfter(w, tool, root, faults, n).0.entry.Some?
          :: NameAfter(w, tool, root, faults, n).0.entry.value,
        map n | n in names && NameAfter(w, tool, root, faults, n).0.recorded.Some?
          :: NameAfter(w, tool, root, faults, n).0.recorded.value),
      map n | n in names && NameAfter(w, tool, root, faults, n).0.backup.Some?
        :: NameAfter(w, tool, root, faults, n).0.backup.value,
      map n | n in names && NameAfter(w, tool, root, faults, n).1.Some?
        :: NameAfter(w, tool, root, faults, n).1.value)
  }

  /** A run is the independent execution of its names. */
  lemma RunRootAt(w: World, tool: Tool, root: Root, faults: Faults, n: Name)
    requires w.WellFormed()
    ensures
      var o := RunRoot(w, tool, root, faults);
      var (c, done) := NameAfter(w, tool, root, faults, n);
      && Get(o.root.entries, n) == c.entry
      && Get(o.root.ledger, n) == c.recorded
      && Get(o.backups, n) == c.backup
      && Get(o.executed, n) == done
  {
    hide RunName;
    if n !in root.entries.Keys + root.ledger.Keys + w.skills.Keys {
      AbsentNameIsIdle(w, tool, n, root.CellAt(n), FaultsAt(faults, n));
    }
  }

  lemma AbsentNameIsIdle(w: World, tool: Tool, n: Name, c: Cell, f: set<Prim>)
    requires w.WellFormed() && n !in w.skills && c.entry.None?
    ensures RunName(w, tool, n, c, f) == (c, None)
  {
  }

  /** Rolling back a run from its record: undo every executed item, then restore the ledger of a copying tool. */
  function UndoRoot(w: World, tool: Tool, ledgerBefore: map<Name, Hash>, o: Outcome): Root {
    Root(
      map n | n in o.root.entries.Keys + o.executed.Keys && UndoneEntry(w, o, n).Some?
        :: UndoneEntry(w, o, n).value,
      if tool.mode.CopyMode? then ledgerBefore else o.root.ledger)
  }

  function UndoneEntry(w: World, o: Outcome, n: Name): Option<Node> {
    var c := Cell(Get(o.root.entries, n), None, Get(o.backups, n), None);
    if n in o.executed then Undo(w, o.executed[n], c).0.entry else c.entry
  }

  /** A rollback leaves what it did not execute, and what changed since, exactly as found. */
  lemma ChangedEntriesStay(w: World, tool: Tool, ledgerBefore: map<Name, Hash>, o: Outcome)
    ensures forall n :: n !in o.executed || ChangedSince(w, o.executed[n], Get(o.root.entries, n)) ==>
              Get(UndoRoot(w, tool, ledgerBefore, o).entries, n) == Get(o.root.entries, n)
  {
    forall n
      ensures Get(UndoRoot(w, tool, ledgerBefore, o).entries, n) == UndoneEntry(w, o, n)
    {
    }
  }

  ghost predicate NoDoubleFault(w: World, tool: Tool, root: Root, faults: Faults)
    requires w.WellFormed()
  {
    forall n :: !DoubleFault(ActionAt(w, tool, n, root.CellAt(n)), FaultsAt(faults, n))
  }

  lemma UndoneEntryAt(w: World, tool: Tool, root: Root, faults: Faults, n: Name)
    requires w.WellFormed()
    ensures
      UndoneEntry(w, RunRoot(w, tool, root, faults), n) == Get(root.entries, n)
      <==> !DoubleFault(ActionAt(w, tool, n, root.CellAt(n)), FaultsAt(faults, n))
  {
    hide RunName, Undo, DoubleFault, ActionAt;
    RunRootAt(w, tool, root, faults, n);
    var c, f := root.CellAt(n), FaultsAt(faults, n);
    if NameAfter(w, tool, root, faults, n).1.Some? {
      UndoInvertsItem(w, tool, n, c, f);
      var (c1, done) := RunName(w, tool, n, c, f);
      UndoReadsEntryAndBackup(w, done.value, c1);
      ExecutedHadNoDoubleFault(w, tool, n, c, f);
    } else {
      FailedItemKeepsEntry(w, tool, n, c, f);
    }
  }

  lemma UndoReadsEntryAndBackup(w: World, done: Done, c: Cell)
    ensures Undo(w, done, c).0.entry == Undo(w, done, Cell(c.entry, None, c.backup, None)).0.entry
  {
  }

  lemma ExecutedHadNoDoubleFault(w: World, tool: Tool, name: Name, c: Cell, f: set<Prim>)
    requires w.WellFormed() && Fresh(c)
    requires RunName(w, tool, name, c, f).1.Some?
    ensures !DoubleFault(ActionAt(w, tool, name, c), f)
  {
  }

  lemma LinkRunKeepsLedger(w: World, tool: Tool, name: Name, c: Cell, f: set<Prim>)
    requires w.WellFormed() && tool.mode.LinkMode?
    ensures RunName(w, tool, name, c, f).0.recorded == c.recorded
  {
  }

  /**
   Fan-out rollback is an exact inverse: for every directory, ledger and set of failing primitives, rolling
   back the run restores all entries and the ledger, if and only if no item suffered a double fault.
   */
  lemma RollbackRestoresRoot(w: World, tool: Tool, root: Root, faults: Faults)
    requires w.WellFormed()
    ensures UndoRoot(w, tool, root.ledger, RunRoot(w, tool, root, faults)) == root
            <==> NoDoubleFault(w, tool, root, faults)
  {
    var o := RunRoot(w, tool, root, faults);
    var back := UndoRoot(w, tool, root.ledger, o);
    forall n
      ensures Get(back.entries, n) == UndoneEntry(w, o, n)
    {
    }
    forall n
      ensures Get(back.entries, n) == Get(root.entries, n)
              <==> !DoubleFault(ActionAt(w, tool, n, root.CellAt(n)), FaultsAt(faults, n))
    {
      UndoneEntryAt(w, tool, root, faults, n);
    }
    if tool.mode.LinkMode? {
      forall n
        ensures Get(o.root.ledger, n) == Get(root.ledger, n)
      {
        RunRootAt(w, tool, root, faults, n);
        LinkRunKeepsLedger(w, tool, n, root.CellAt(n), FaultsAt(faults, n));
      }
      SameLookups(o.root.ledger, root.ledger);
    }
    if NoDoubleFault(w, tool, root, faults) {
      SameLookups(back.entries, root.entries);
    }
  }

  /**
   Rolling back after the user, or anything else, has changed the directory in any way: whatever changed since the
   run stays exactly as found, and everything else that the run executed is as it was before it. Adopted copies and
   entries the run did not execute are not touched.
   */
  lemma RollbackAfterEdits(w: World, tool: Tool, root: Root, faults: Faults, later: World, edited: map<Name, Node>,
                           n: Name)
    requires w.WellFormed()
    ensures
      var o := RunRoot(w, tool, root, faults);
      var back := UndoRoot(later, tool, root.ledger, Outcome(Root(edited, o.root.ledger), o.backups, o.executed));
      Get(back.entries, n) ==
        if n !in o.executed || o.executed[n].action == Adopt || ChangedSince(later, o.executed[n], Get(edited, n))
        then Get(edited, n) else Get(root.entries, n)
  {
    hide RunName, Undo, ChangedSince;
    var o := RunRoot(w, tool, root, faults);
    RunRootAt(w, tool, root, faults, n);
    if n in o.executed {
      var c := Cell(Get(edited, n), None, Get(o.backups, n), None);
      ChangedEntryIsKept(w, tool, n, root.CellAt(n), FaultsAt(faults, n), later, c);
      UnchangedEntryIsRestored(w, tool, n, root.CellAt(n), FaultsAt(faults, n), later, c);
    }
  }

  // ----- the fixpoint ---------------------------------------------------------------------------

  /** A fault-free run of one name; the next run has a fresh id. */
  function Settle(w: World, tool: Tool, name: Name, c: Cell): Cell
    requires w.WellFormed()
  {
    RunName(w, tool, name, c, {}).0.(backup := None, temp := None)
  }

  /** The one situation that needs a second run: an unrecorded copy that differs from the skill in metadata only. */
  predicate MetadataOnlyDifference(w: World, tool: Tool, name: Name, c: Cell) {
    && tool.mode.CopyMode?
    && Wanted(w, tool, name, c.entry)
    && c.recorded.None?
    && c.entry.Some? && c.entry.value.Dir?
    && c.entry.value.tree.ScanHash() != w.skills[name].tree.ScanHash()
    && c.entry.value.tree.AdoptionHash() == w.skills[name].tree.AdoptionHash()
  }

  lemma LinkRunSettles(w: World, tool: Tool, name: Name, c: Cell)
    requires w.WellFormed() && Fresh(c) && tool.mode.LinkMode?
    ensures IsNoop(ActionAt(w, tool, name, Settle(w, tool, name, c)))
  {
  }

  lemma CopyRunSettlesUnless(w: World, tool: Tool, name: Name, c: Cell)
    requires w.WellFormed() && Fresh(c) && tool.mode.CopyMode?
    ensures IsNoop(ActionAt(w, tool, name, Settle(w, tool, name, c))) <==> !MetadataOnlyDifference(w, tool, name, c)
  {
  }

  /** One fault-free run settles an entry, except in the one situation that needs a second. */
  lemma OneRunSettlesUnless(w: World, tool: Tool, name: Name, c: Cell)
    requires w.WellFormed() && Fresh(c)
    ensures IsNoop(ActionAt(w, tool, name, Settle(w, tool, name, c))) <==> !MetadataOnlyDifference(w, tool, name, c)
  {
    hide RunName, ActionAt, Settle;
    if tool.mode.LinkMode? {
      LinkRunSettles(w, tool, name, c);
    } else {
      CopyRunSettlesUnless(w, tool, name, c);
    }
  }

  lemma TwoRunsSettle(w: World, tool: Tool, name: Name, c: Cell)
    requires w.WellFormed() && Fresh(c)
    ensures IsNoop(ActionAt(w, tool, name, Settle(w, tool, name, Settle(w, tool, name, c))))
  {
    OneRunSettlesUnless(w, tool, name, Settle(w, tool, name, c));
    if MetadataOnlyDifference(w, tool, name, c) {
      assert Settle(w, tool, name, c).recorded == c.entry.value.tree.ScanHash();
    } else {
      OneRunSettlesUnless(w, tool, name, c);
    }
  }

  /** What a tool may take over: nothing, equal content, its own recorded copy, or a link into the canonical root. */
  predicate Takeable(w: World, mode: Mode, name: Name, c: Cell)
    requires name in w.skills
  {
    var skill := w.skills[name].tree;
    match c.entry
    case None => true
    case Some(File(_)) => false
    case Some(Dir(tree)) =>
      if mode.LinkMode? || c.recorded.None? then
        tree.ScanHash() == skill.ScanHash() || tree.AdoptionHash() == skill.AdoptionHash()
      else tree.ScanHash() == skill.ScanHash() || tree.ScanHash() == c.recorded
    case Some(Link(raw)) =>
      match w.LinkOf(raw).place
      case InCanonical(_) => true
      case InAdoptable(tree) => tree.ScanHash() == skill.ScanHash() || tree.AdoptionHash() == skill.AdoptionHash()
      case Elsewhere => false
  }

  lemma UntakeableStays(w: World, tool: Tool, name: Name, c: Cell)
    requires w.WellFormed() && Fresh(c) && Wanted(w, tool, name, c.entry) && !Takeable(w, tool.mode, name, c)
    ensures Settle(w, tool, name, c) == c && ActionAt(w, tool, name, c) != Okay
  {
  }

  lemma TakeableIsPlaced(w: World, tool: Tool, name: Name, c: Cell)
    requires w.WellFormed() && Fresh(c) && Wanted(w, tool, name, c.entry) && Takeable(w, tool.mode, name, c)
    requires !MetadataOnlyDifference(w, tool, name, c)
    ensures
      var c1 := Settle(w, tool, name, c);
      Fresh(c1) && Wanted(w, tool, name, c1.entry) && ActionAt(w, tool, name, c1) == Okay
  {
  }

  lemma AdoptedIsTakeable(w: World, tool: Tool, name: Name, c: Cell)
    requires w.WellFormed() && Fresh(c) && MetadataOnlyDifference(w, tool, name, c)
    ensures
      var c1 := Settle(w, tool, name, c);
      && Fresh(c1) && Wanted(w, tool, name, c1.entry) && Takeable(w, tool.mode, name, c1)
      && !MetadataOnlyDifference(w, tool, name, c1)
  {
  }

  lemma OkayStays(w: World, tool: Tool, name: Name, c: Cell)
    requires w.WellFormed() && Fresh(c) && ActionAt(w, tool, name, c) == Okay
    ensures Settle(w, tool, name, c) == c
  {
  }

  /**
   What the fixpoint holds for a wanted skill: the canonical skill if and only if the tool could take the entry
   over; an entry it could not take over is still there, untouched.
   */
  lemma WantedEntryAfterTwoRuns(w: World, tool: Tool, name: Name, c: Cell)
    requires w.WellFormed() && Fresh(c) && name in w.skills && Wanted(w, tool, name, c.entry)
    ensures
      var c2 := Settle(w, tool, name, Settle(w, tool, name, c));
      && (ActionAt(w, tool, name, c2) == Okay <==> Takeable(w, tool.mode, name, c))
      && (!Takeable(w, tool.mode, name, c) ==> c2 == c)
  {
    hide RunName, ActionAt, Settle, Takeable, MetadataOnlyDifference, Wanted;
    var c1 := Settle(w, tool, name, c);
    if !Takeable(w, tool.mode, name, c) {
      UntakeableStays(w, tool, name, c);
    } else if MetadataOnlyDifference(w, tool, name, c) {
      AdoptedIsTakeable(w, tool, name, c);
      TakeableIsPlaced(w, tool, name, c1);
    } else {
      TakeableIsPlaced(w, tool, name, c);
      OkayStays(w, tool, name, c1);
    }
  }

  // ----- which skills a tool gets, from the inputs ----------------------------------------------------

  /** A global skill without risk findings, declared for this tool, or undeclared and there already. */
  predicate Entitled(skill: Skill, tool: Tool, present: bool) {
    && skill.global && !skill.riskError
    && match skill.declared
       case None => present
       case Some(targets) => exists alias :: alias in targets && alias in tool.aliases
  }

  lemma EntitledIsWanted(w: World, tool: Tool, name: Name, node: Option<Node>)
    requires w.WellFormed()
    ensures Wanted(w, tool, name, node) <==> name in w.skills && Entitled(w.skills[name], tool, node.Some?)
  {
    if name in w.skills && w.skills[name].declared.Some? {
      var targets := w.skills[name].declared.value;
      assert (exists alias :: alias in targets && alias in tool.aliases) <==> tool.aliases * targets != {} by {
        if alias :| alias in targets && alias in tool.aliases {
          assert alias in tool.aliases * targets;
        }
      }
    }
  }

  /** An absent skill is placed by one fault-free run if and only if it is declared for the tool and may be placed. */
  lemma AbsentSkillIsPlacedIff(w: World, tool: Tool, root: Root, name: Name)
    requires w.WellFormed() && name in w.skills && name !in root.entries
    ensures
      var skill, after := w.skills[name], RunRoot(w, tool, root, map[]).root;
      if Entitled(skill, tool, false) then
        match tool.mode
        case LinkMode => Get(after.entries, name) == Some(Link(skill.source))
        case CopyMode =>
          Get(after.entries, name) == Some(Dir(skill.tree)) && Get(after.ledger, name) == skill.tree.ScanHash()
      else name !in after.entries && Get(after.ledger, name) == Get(root.ledger, name)
  {
    hide Entitled, RunRoot, RunName, Wanted;
    RunRootAt(w, tool, root, map[], name);
    EntitledIsWanted(w, tool, name, None);
    AbsentNameRuns(w, tool, name, root.CellAt(name));
  }

  lemma AbsentNameRuns(w: World, tool: Tool, name: Name, c: Cell)
    requires w.WellFormed() && name in w.skills && Fresh(c) && c.entry.None?
    ensures
      var after, skill := RunName(w, tool, name, c, {}).0, w.skills[name];
      if !Wanted(w, tool, name, None) then after == c
      else if tool.mode.LinkMode? then after.entry == Some(Link(skill.source))
      else after.entry == Some(Dir(skill.tree)) && after.recorded == skill.tree.ScanHash()
  {
  }

  /**
   A skill the tool is entitled to is canonical after two fault-free runs, if and only if its entry could be taken
   over; an entry that could not is as before.
   */
  lemma EntitledSkillAfterTwoRuns(w: World, tool: Tool, root: Root, name: Name)
    requires w.WellFormed() && name in w.skills && Entitled(w.skills[name], tool, name in root.entries)
    ensures
      var twice := RunRoot(w, tool, RunRoot(w, tool, root, map[]).root, map[]).root;
      if Takeable(w, tool.mode, name, root.CellAt(name)) then IsCanonical(w, tool.mode, name, twice.CellAt(name))
      else twice.CellAt(name) == root.CellAt(name)
  {
    hide RunName, ActionAt, Settle, Takeable, Wanted, Entitled;
    var c, once := root.CellAt(name), RunRoot(w, tool, root, map[]).root;
    CellAfterCleanRun(w, tool, root, name);
    CellAfterCleanRun(w, tool, once, name);
    EntitledIsWanted(w, tool, name, c.entry);
    WantedEntryAfterTwoRuns(w, tool, name, c);
    var c2 := Settle(w, tool, name, Settle(w, tool, name, c));
    if Takeable(w, tool.mode, name, c) {
      WantedStays(w, tool, name, c);
      WantedStays(w, tool, name, Settle(w, tool, name, c));
      OkayEntryIsCanonical(w, tool, name, c2);
    }
  }

  /** An entry that cannot be taken over is reported as a foreign link when it is one, and as a conflict otherwise. */
  lemma UntakenEntryIsReported(w: World, tool: Tool, name: Name, c: Cell)
    requires w.WellFormed() && name in w.skills && Entitled(w.skills[name], tool, c.entry.Some?)
    ensures ActionAt(w, tool, name, c) == ForeignLink <==>
              c.entry.Some? && c.entry.value.Link? && w.LinkOf(c.entry.value.raw).place.Elsewhere?
    ensures ActionAt(w, tool, name, c) == Conflict <==>
              && !Takeable(w, tool.mode, name, c)
              && !(c.entry.value.Link? && w.LinkOf(c.entry.value.raw).place.Elsewhere?)
  {
    hide Entitled;
    EntitledIsWanted(w, tool, name, c.entry);
  }

  /** A fault-free run keeps a wanted skill wanted. */
  lemma WantedStays(w: World, tool: Tool, name: Name, c: Cell)
    requires w.WellFormed() && Fresh(c) && Wanted(w, tool, name, c.entry)
    ensures Fresh(Settle(w, tool, name, c)) && Wanted(w, tool, name, Settle(w, tool, name, c).entry)
  {
  }

  /** A dangling link into the canonical root, or a copy with its recorded hash; hidden entries do not count. */
  predicate Abandoned(w: World, mode: Mode, name: Name, c: Cell) {
    && !(name != "" && name[0] == '.')
    && match c.entry
       case Some(Link(raw)) => w.LinkOf(raw).lexical && !w.LinkOf(raw).resolves
       case Some(Dir(tree)) => mode.CopyMode? && c.recorded.Some? && tree.ScanHash() == c.recorded
       case _ => false
  }

  /**
   What a fault-free run does to an entry that no skill of the canonical root may have: it leaves if and only if it is
   abandoned, a directory into the backup and with its ledger line, a link into the record.
   */
  lemma UnclaimedEntryLeavesIff(w: World, tool: Tool, root: Root, name: Name)
    requires w.WellFormed()
    requires name !in w.skills || !Entitled(w.skills[name], tool, name in root.entries)
    ensures
      var o := RunRoot(w, tool, root, map[]);
      var c, after := root.CellAt(name), o.root.CellAt(name);
      if Abandoned(w, tool.mode, name, c) then
        && after.entry.None?
        && (c.entry.value.Dir? ==> after.recorded.None? && Get(o.backups, name) == c.entry)
        && (c.entry.value.Link? ==>
              name in o.executed && o.executed[name].oldLink == Some(c.entry.value.raw) && after.recorded == c.recorded)
      else after == c && name !in o.executed
  {
    hide Entitled, RunRoot, RunName, Wanted, Abandoned;
    RunRootAt(w, tool, root, map[], name);
    EntitledIsWanted(w, tool, name, Get(root.entries, name));
    UnwantedNameRuns(w, tool, name, root.CellAt(name));
  }

  lemma UnwantedNameRuns(w: World, tool: Tool, name: Name, c: Cell)
    requires w.WellFormed() && Fresh(c) && !Wanted(w, tool, name, c.entry)
    ensures
      var (after, done) := RunName(w, tool, name, c, {});
      if !Abandoned(w, tool.mode, name, c) then (after, done) == (c, None)
      else
        && c.entry.Some? && !c.entry.value.File? && after.entry.None?
        && (c.entry.value.Dir? ==> after.recorded.None? && after.backup == c.entry)
        && (c.entry.value.Link? ==>
              done.Some? && done.value.oldLink == Some(c.entry.value.raw) && after.recorded == c.recorded)
  {
  }

  // ----- the settled root -----------------------------------------------------------------------------

  ghost predicate Settled(w: World, tool: Tool, root: Root)
    requires w.WellFormed()
  {
    forall n :: IsNoop(ActionAt(w, tool, n, root.CellAt(n)))
  }

  lemma CellAfterCleanRun(w: World, tool: Tool, root: Root, n: Name)
    requires w.WellFormed()
    ensures RunRoot(w, tool, root, map[]).root.CellAt(n) == Settle(w, tool, n, root.CellAt(n))
  {
    RunRootAt(w, tool, root, map[], n);
  }

  /**
   Fan-out reaches a fixpoint: after two fault-free runs the plan holds only no-ops, so further runs change
   nothing; one run is enough exactly when no unrecorded copy differs from its skill in metadata only.
   */
  lemma FanoutReachesFixpoint(w: World, tool: Tool, root: Root)
    requires w.WellFormed()
    ensures
      var once := RunRoot(w, tool, root, map[]).root;
      var twice := RunRoot(w, tool, once, map[]).root;
      && Settled(w, tool, twice)
      && (Settled(w, tool, once) <==> forall n :: !MetadataOnlyDifference(w, tool, n, root.CellAt(n)))
      && (forall faults :: RunRoot(w, tool, twice, faults) == Outcome(twice, map[], map[]))
  {
    var once := RunRoot(w, tool, root, map[]).root;
    var twice := RunRoot(w, tool, once, map[]).root;
    forall n
      ensures IsNoop(ActionAt(w, tool, n, twice.CellAt(n)))
      ensures IsNoop(ActionAt(w, tool, n, once.CellAt(n))) <==> !MetadataOnlyDifference(w, tool, n, root.CellAt(n))
    {
      CellAfterCleanRun(w, tool, root, n);
      CellAfterCleanRun(w, tool, once, n);
      TwoRunsSettle(w, tool, n, root.CellAt(n));
      OneRunSettlesUnless(w, tool, n, root.CellAt(n));
    }
    forall faults
      ensures RunRoot(w, tool, twice, faults) == Outcome(twice, map[], map[])
    {
      SettledRunIsIdle(w, tool, twice, faults);
    }
  }

  lemma SettledRunIsIdle(w: World, tool: Tool, root: Root, faults: Faults)
    requires w.WellFormed() && Settled(w, tool, root)
    ensures RunRoot(w, tool, root, faults) == Outcome(root, map[], map[])
  {
    var o := RunRoot(w, tool, root, faults);
    forall n
      ensures Get(o.root.entries, n) == Get(root.entries, n)
      ensures Get(o.root.ledger, n) == Get(root.ledger, n)
      ensures Get(o.backups, n) == None && Get(o.executed, n) == None
    {
      RunRootAt(w, tool, root, faults, n);
      assert IsNoop(ActionAt(w, tool, n, root.CellAt(n)));
    }
    SameLookups(o.root.entries, root.entries);
    SameLookups(o.root.ledger, root.ledger);
    SameLookups(o.backups, map[]);
    SameLookups(o.executed, map[]);
  }

  // ----- sequences of runs ----------------------------------------------------------------------

  /** The tool directory changes under the user's hands, the canonical root changes by syncing, and runs happen. */
  datatype Event = UserEdit(entries: map<Name, Node>) | CanonicalChange(world: World) | FanoutRun(faults: Faults)

  datatype Sys = Sys(world: World, root: Root)

  ghost predicate Wellformed(s: Sys, events: seq<Event>) {
    && s.world.WellFormed()
    && (forall i :: 0 <= i < |events| && events[i].CanonicalChange? ==> events[i].world.WellFormed())
  }

  ghost function StateAfter(tool: Tool, s: Sys, events: seq<Event>): (r: Sys)
    requires Wellformed(s, events)
    ensures r.world.WellFormed()
  {
    if events == [] then s
    else
      var before := StateAfter(tool, s, events[..|events| - 1]);
      match events[|events| - 1]
      case UserEdit(entries) => before.(root := before.root.(entries := entries))
      case CanonicalChange(world) => before.(world := world)
      case FanoutRun(faults) => before.(root := RunRoot(before.world, tool, before.root, faults).root)
  }

  /** `h` stands for canonical content of `n`: the skill's tree hash, or that of an entry equal but for metadata. */
  predicate Blesses(s: Sys, n: Name, h: Hash) {
    && n in s.world.skills
    && var skill := s.world.skills[n].tree;
       || skill.ScanHash() == Some(h)
       || (&& n in s.root.entries && s.root.entries[n].Dir?
           && s.root.entries[n].tree.ScanHash() == Some(h)
           && s.root.entries[n].tree.AdoptionHash() == skill.AdoptionHash())
  }

  /** `h` stood for canonical content of `n` when one of the runs among `events` began. */
  ghost predicate EverBlessed(tool: Tool, s: Sys, events: seq<Event>, n: Name, h: Hash)
    requires Wellformed(s, events)
  {
    exists i :: 0 <= i < |events| && events[i].FanoutRun? && Blesses(StateAfter(tool, s, events[..i]), n, h)
  }

  lemma EverBlessedGrows(tool: Tool, s: Sys, events: seq<Event>, n: Name, h: Hash)
    requires Wellformed(s, events) && events != []
    requires EverBlessed(tool, s, events[..|events| - 1], n, h)
    ensures EverBlessed(tool, s, events, n, h)
  {
    var shorter := events[..|events| - 1];
    var i :| 0 <= i < |shorter| && shorter[i].FanoutRun? && Blesses(StateAfter(tool, s, shorter[..i]), n, h);
    assert shorter[..i] == events[..i];
  }

  /** A run only keeps, drops or blesses a ledger line. */
  lemma NewLedgerLineIsBlessed(tool: Tool, s: Sys, n: Name, f: set<Prim>)
    requires s.world.WellFormed()
    ensures
      var c := RunName(s.world, tool, n, s.root.CellAt(n), f).0;
      c.recorded.None? || c.recorded == s.root.CellAt(n).recorded || Blesses(s, n, c.recorded.value)
  {
  }

  /** Starting from an empty ledger, every ledger line names content that was canonical when some run wrote it. */
  lemma {:induction false} LedgerProvenance(tool: Tool, s: Sys, events: seq<Event>, n: Name)
    requires Wellformed(s, events)
    requires s.root.ledger == map[]
    requires n in StateAfter(tool, s, events).root.ledger
    ensures EverBlessed(tool, s, events, n, StateAfter(tool, s, events).root.ledger[n])
    decreases |events|
  {
    hide RunName, Blesses;
    if events != [] {
      var shorter, last := events[..|events| - 1], events[|events| - 1];
      var before := StateAfter(tool, s, shorter);
      var h := StateAfter(tool, s, events).root.ledger[n];
      if last.FanoutRun? {
        RunRootAt(before.world, tool, before.root, last.faults, n);
        NewLedgerLineIsBlessed(tool, before, n, FaultsAt(last.faults, n));
        if Get(before.root.ledger, n) == Some(h) {
          LedgerProvenance(tool, s, shorter, n);
          EverBlessedGrows(tool, s, events, n, h);
        } else {
          assert events[..|events| - 1] == shorter && Blesses(before, n, h);
        }
      } else {
        LedgerProvenance(tool, s, shorter, n);
        EverBlessedGrows(tool, s, events, n, h);
      }
    }
  }

  /**
   No user content is lost over any sequence of runs and edits: when a run makes a directory leave its entry,
   that directory equals the current canonical skill or carries a hash that stood for canonical content in an
   earlier run, and the run's backup holds it. A copy the user edited carries no such hash, so it stays.
   */
  lemma OnlyBlessedTreesLeave(tool: Tool, s: Sys, events: seq<Event>, faults: Faults, n: Name)
    requires Wellformed(s, events)
    requires s.root.ledger == map[]
    requires
      var at := StateAfter(tool, s, events);
      && n in at.root.entries && at.root.entries[n].Dir?
      && Get(RunRoot(at.world, tool, at.root, faults).root.entries, n) != Some(at.root.entries[n])
    ensures
      var at := StateAfter(tool, s, events);
      var tree := at.root.entries[n].tree;
      && (|| (n in at.world.skills
              && (|| tree.ScanHash() == at.world.skills[n].tree.ScanHash()
                  || tree.AdoptionHash() == at.world.skills[n].tree.AdoptionHash()))
          || (tree.ScanHash().Some? && EverBlessed(tool, s, events, n, tree.ScanHash().value)))
      && Get(RunRoot(at.world, tool, at.root, faults).backups, n) == Some(at.root.entries[n])
  {
    var at := StateAfter(tool, s, events);
    RunRootAt(at.world, tool, at.root, faults, n);
    DirectoryIsNeverLost(at.world, tool, n, at.root.CellAt(n), FaultsAt(faults, n));
    if n in at.root.ledger {
      LedgerProvenance(tool, s, events, n);
    }
  }
}
