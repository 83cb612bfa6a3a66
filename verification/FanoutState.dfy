/**
 The fan-out as it runs: tool directories changed in place, item by item, and rolled back from run records.
 Every method is proved equal to the functions of FanoutCell and FanoutRuns.
 */
module FanoutState {
  import opened Common
  import opened FanoutPlan
  import opened FanoutCell
  import opened FanoutRuns

  /** `scan` lists the skills found under the canonical root; its top-level ones are exactly `w.skills`. */
  ghost predicate ScanOf(w: World, scan: seq<Skill>) {
    && (forall i :: 0 <= i < |scan| && scan[i].topLevel ==>
          scan[i].name in w.skills && w.skills[scan[i].name] == scan[i])
    && (forall i, j :: 0 <= i < j < |scan| && scan[i].topLevel && scan[j].topLevel ==> scan[i].name != scan[j].name)
    && (forall n :: n in w.skills ==> w.skills[n] in scan)
  }

  ghost predicate DistinctItems(items: seq<Item>) {
    forall i, j :: 0 <= i < j < |items| ==> items[i].name != items[j].name
  }

  ghost predicate Covers(items: seq<Item>, n: Name) {
    exists i :: 0 <= i < |items| && items[i].name == n
  }

  function PlanAt(w: World, tool: Tool, root: Root, n: Name): Option<Item>
    requires w.WellFormed()
  {
    PlanName(w, tool, n, Get(root.entries, n), Get(root.ledger, n))
  }

  /** `items` holds exactly the planned item of every name, once. */
  ghost predicate IsPlan(w: World, tool: Tool, root: Root, items: seq<Item>)
    requires w.WellFormed()
  {
    && DistinctItems(items)
    && (forall i :: 0 <= i < |items| ==> PlanAt(w, tool, root, items[i].name) == Some(items[i]))
    && (forall n :: PlanAt(w, tool, root, n).Some? ==> Covers(items, n))
  }

  /** The executed items of a run, by name. */
  ghost predicate Lists(executed: seq<Done>, m: map<Name, Done>) {
    && (forall i, j :: 0 <= i < j < |executed| ==> executed[i].name != executed[j].name)
    && (forall i :: 0 <= i < |executed| ==> executed[i].name in m && m[executed[i].name] == executed[i])
    && (forall n :: n in m ==> m[n] in executed && m[n].name == n)
  }

  datatype Failure = Failure(name: Name, action: Action)
  datatype ToolReport = ToolReport(tool: Tool, ledgerBefore: map<Name, Hash>, executed: seq<Done>, failed: seq<Failure>)

  /** Everything a run touches for one tool: directory, ledger, the run's backups and its temporary names. */
  datatype Disk = Disk(entries: map<Name, Node>, ledger: map<Name, Hash>, backup: map<Name, Node>,
                       temps: map<Name, Node>)
  {
    function CellAt(n: Name): Cell {
      Cell(Get(entries, n), Get(ledger, n), Get(backup, n), Get(temps, n))
    }
  }

  ghost predicate OnlyChanged(n: Name, before: Disk, after: Disk) {
    forall x :: x != n ==> after.CellAt(x) == before.CellAt(x)
  }

  class ToolDir {
    const tool: Tool
    var entries: map<Name, Node>
    var ledger: map<Name, Hash>
    var backup: map<Name, Node>   // the current run's backup directory for this tool
    var temps: map<Name, Node>    // hidden temporary names carrying the current run id

    ghost function Now(): Disk
      reads this
    {
      Disk(entries, ledger, backup, temps)
    }

    ghost function Contents(): Root
      reads this
    {
      Root(entries, ledger)
    }

    method SwapLink(n: Name, raw: Raw, f: set<Prim>) returns (ok: bool)
      modifies this`entries, this`temps
      ensures (Now().CellAt(n), ok) == FanoutCell.SwapLink(old(Now()).CellAt(n), raw, f)
      ensures OnlyChanged(n, old(Now()), Now())
    {
      temps := temps - {n};
      if MakeTempLink in f { return false; }
      temps := temps[n := Link(raw)];
      if ReplaceTemp in f || (n in entries && entries[n].Dir?) { return false; }
      entries := entries[n := temps[n]];
      temps := temps - {n};
      return true;
    }

    method CopyInto(n: Name, tree: Option<Tree>, f: set<Prim>) returns (ok: bool)
      modifies this`temps
      ensures (Now().CellAt(n), ok) == FanoutCell.CopyInto(old(Now()).CellAt(n), tree, f)
      ensures OnlyChanged(n, old(Now()), Now())
    {
      temps := temps - {n};
      if CopyTree in f || tree.None? { return false; }
      temps := temps[n := Dir(tree.value)];
      return true;
    }

    method DropTemp(n: Name, f: set<Prim>)
      modifies this`temps
      ensures Now().CellAt(n) == FanoutCell.DropTemp(old(Now()).CellAt(n), f)
      ensures OnlyChanged(n, old(Now()), Now())
    {
      if RemoveTemp !in f {
        temps := temps - {n};
      }
    }

    /** Moves the entry into the run's backup; fails when it is gone. */
    method MoveAway(n: Name, f: set<Prim>) returns (ok: bool)
      modifies this`entries, this`backup
      ensures ok == (MoveToBackup !in f && n in old(entries))
      ensures Now().CellAt(n) == if ok then old(Now()).CellAt(n).(entry := None,
        backup := old(Now()).CellAt(n).entry) else old(Now()).CellAt(n)
      ensures OnlyChanged(n, old(Now()), Now())
    {
      if MoveToBackup in f || n !in entries { return false; }
      backup := backup[n := entries[n]];
      entries := entries - {n};
      return true;
    }

    /** Recovery: moves the backup to the entry again. */
    method MoveItBack(n: Name, f: set<Prim>) returns (ok: bool)
      requires n in backup
      modifies this`entries, this`backup
      ensures ok == (MoveBack !in f)
      ensures Now().CellAt(n) == if ok then old(Now()).CellAt(n).(entry := old(Now()).CellAt(n).backup,
        backup := None) else old(Now()).CellAt(n)
      ensures OnlyChanged(n, old(Now()), Now())
    {
      if MoveBack in f { return false; }
      entries := entries[n := backup[n]];
      backup := backup - {n};
      return true;
    }

    /** The copy at the temporary name becomes the entry, and the ledger records its hash. */
    method InstallCopy(n: Name, hash: Option<Hash>)
      requires n in temps
      modifies this`entries, this`temps, this`ledger
      ensures Now().CellAt(n) == old(Now()).CellAt(n).(entry := old(Now()).CellAt(n).temp, temp := None,
            recorded := hash)
      ensures OnlyChanged(n, old(Now()), Now())
    {
      entries := entries[n := temps[n]];
      temps := temps - {n};
      ledger := Put(ledger, n, hash);
    }

    /** Carries out one planned item; `None` reports it as failed. */
    method ExecuteItem(item: Item, f: set<Prim>) returns (done: Option<Done>)
      modifies this
      ensures (Now().CellAt(item.name), done) == Exec(item, old(Now()).CellAt(item.name), f)
      ensures OnlyChanged(item.name, old(Now()), Now())
    {
      var n := item.name;
      var d := DoneFor(item);
      match item.action {
        case LinkNew =>
          if n in entries { return None; }
          var ok := SwapLink(n, item.source, f);
          return if ok then Some(d) else None;
        case Relink =>
          if ReadLink in f || n !in entries || !entries[n].Link? { return None; }
          d := d.(oldLink := Some(entries[n].raw));
          var ok := SwapLink(n, item.source, f);
          return if ok then Some(d) else None;
        case ReplaceDirWithLink =>
          var moved := MoveAway(n, f);
          if !moved { return None; }
          var ok := SwapLink(n, item.source, f);
          if ok { return Some(d.(backedUp := true)); }
          var _ := MoveItBack(n, f);
          return None;
        case CopyNew =>
          var ok := CopyInto(n, item.tree, f);
          if !ok { return None; }
          if n in entries || RenameTemp in f {
            DropTemp(n, f);
            return None;
          }
          InstallCopy(n, item.contentHash);
          return Some(d);
        case UpdateCopy =>
          var ok := CopyInto(n, item.tree, f);
          if !ok { return None; }
          var moved := MoveAway(n, f);
          if !moved {
            DropTemp(n, f);
            return None;
          }
          if RenameTemp in f {
            var back := MoveItBack(n, f);
            if back {
              DropTemp(n, f);
            }
            return None;
          }
          InstallCopy(n, item.contentHash);
          return Some(d.(backedUp := true));
        case Adopt =>
          ledger := Put(ledger, n, item.contentHash);
          return Some(d);
        case ReplaceLinkWithCopy =>
          if ReadLink in f || n !in entries || !entries[n].Link? { return None; }
          var raw := entries[n].raw;
          var ok := CopyInto(n, item.tree, f);
          if !ok || Unlink in f { return None; }
          entries := entries - {n};
          if RenameTemp in f {
            if Symlink in f { return None; }
            entries := entries[n := Link(raw)];
            DropTemp(n, f);
            return None;
          }
          InstallCopy(n, item.contentHash);
          return Some(d.(oldLink := Some(raw)));
        case RemoveDanglingLink =>
          if ReadLink in f || n !in entries || !entries[n].Link? { return None; }
          d := d.(oldLink := Some(entries[n].raw));
          if Unlink in f { return None; }
          entries := entries - {n};
          return Some(d);
        case RemoveCopy =>
          var moved := MoveAway(n, f);
          if !moved { return None; }
          ledger := ledger - {n};
          return Some(d.(backedUp := true));
        case _ =>
          return None;
      }
    }

    /** The items of the skills this tool wants, in scan order. */
    method PlanSkills(w: World, scan: seq<Skill>) returns (items: seq<Item>, wanted: set<Name>)
      requires w.WellFormed() && ScanOf(w, scan)
      ensures DistinctItems(items)
      ensures forall n :: n in wanted <==> Covers(items, n)
      ensures forall n :: n in wanted <==> Wanted(w, tool, n, Get(entries, n))
      ensures forall i :: 0 <= i < |items| ==> PlanAt(w, tool, Contents(), items[i].name) == Some(items[i])
    {
      items, wanted := [], {};
      for k := 0 to |scan|
        invariant Placed(w, tool, Contents(), scan[..k], items, wanted)
      {
        var skill := scan[k];
        var n := skill.name;
        assert scan[..k + 1] == scan[..k] + [skill];
        PlaceStep(w, tool, Contents(), scan, k, items, wanted);
        var reason := SkillDecision(skill, tool, n in entries);
        if reason.None? {
          items := items + [PlanEntry(w, skill, tool.mode, Get(entries, n), Get(ledger, n))];
          wanted := wanted + {n};
        }
      }
      assert scan[..|scan|] == scan;
    }

    /** The plan of this tool: the wanted skills, then the entries no skill claims. */
    method BuildPlan(w: World, scan: seq<Skill>) returns (items: seq<Item>)
      requires w.WellFormed() && ScanOf(w, scan)
      ensures IsPlan(w, tool, Contents(), items)
    {
      var wanted;
      items, wanted := PlanSkills(w, scan);
      assert forall n :: n !in wanted ==>
          PlanAt(w, tool, Contents(), n) == PlanRemoval(w, tool.mode, n, Get(entries, n), Get(ledger, n));
      assert forall n :: n !in wanted && n !in entries ==> PlanAt(w, tool, Contents(), n).None?;
      hide ScanOf, PlanEntry, SkillDecision, PlanAt;
      var remaining := entries.Keys - wanted;
      while remaining != {}
        invariant remaining <= entries.Keys - wanted
        invariant DistinctItems(items)
        invariant forall n :: n in remaining ==> !Covers(items, n)
        invariant forall i :: 0 <= i < |items| ==> PlanAt(w, tool, Contents(), items[i].name) == Some(items[i])
        invariant forall n :: PlanAt(w, tool, Contents(), n).Some? && n !in remaining ==> Covers(items, n)
      {
        var n :| n in remaining;
        remaining := remaining - {n};
        var item := PlanRemoval(w, tool.mode, n, Get(entries, n), Get(ledger, n));
        if item.Some? {
          CoversAppended(items, item.value);
          items := items + [item.value];
        }
      }
    }

    /** One planned item: skipped when it is a no-op, executed otherwise. */
    method RunItem(ghost w: World, ghost start: Root, item: Item, faults: Faults) returns (done: Option<Done>)
      requires w.WellFormed() && PlanAt(w, tool, start, item.name) == Some(item)
      requires Now().CellAt(item.name) == start.CellAt(item.name)
      modifies this
      ensures (Now().CellAt(item.name), done) == NameAfter(w, tool, start, faults, item.name)
      ensures OnlyChanged(item.name, old(Now()), Now())
    {
      PlannedNameRuns(w, tool, start, faults, item);
      hide Exec, NameAfter;
      if IsNoop(item.action) { return None; }
      done := ExecuteItem(item, FaultsAt(faults, item.name));
    }

    /** Executes the items of a plan in order; failures are reported and do not stop the run. */
    method ExecutePlan(w: World, items: seq<Item>, faults: Faults) returns (executed: seq<Done>, failed: seq<Failure>)
      requires w.WellFormed() && IsPlan(w, tool, Contents(), items)
      requires backup == map[] && temps == map[]
      modifies this
      ensures Progress(w, tool, old(Contents()), faults, items, Now(), executed)
      ensures Reports(failed, items, w, tool, old(Contents()), faults)
    {
      ghost var start := Contents();
      executed, failed := [], [];
      assert Progress(w, tool, start, faults, items[..0], Now(), executed);
      assert Reports(failed, items[..0], w, tool, start, faults);
      hide *;
      for k := 0 to |items|
        invariant Progress(w, tool, start, faults, items[..k], Now(), executed)
        invariant Reports(failed, items[..k], w, tool, start, faults)
      {
        ghost var before := Now();
        ItemIsNext(w, tool, start, faults, items, k, before, executed);
        var done := RunItem(w, start, items[k], faults);
        ProgressStep(w, tool, start, faults, items, k, before, Now(), executed);
        ReportsStep(failed, items, w, tool, start, faults, k);
        if done.Some? {
          executed := executed + [done.value];
        } else if !IsNoop(items[k].action) {
          failed := failed + [Failure(items[k].name, items[k].action)];
        }
      }
      assert items[..|items|] == items;
    }

    /** One locked run over this tool: plan, execute, report. */
    method RunTool(w: World, scan: seq<Skill>, faults: Faults) returns (report: ToolReport)
      requires w.WellFormed() && ScanOf(w, scan)
      requires backup == map[] && temps == map[]
      modifies this
      ensures Contents() == RunRoot(w, tool, old(Contents()), faults).root
      ensures backup == RunRoot(w, tool, old(Contents()), faults).backups
      ensures Lists(report.executed, RunRoot(w, tool, old(Contents()), faults).executed)
      ensures report.tool == tool && report.ledgerBefore == old(ledger)
      ensures forall n :: IsReported(report.failed, n) <==>
                && !IsNoop(ActionAt(w, tool, n, old(Contents()).CellAt(n)))
                && n !in RunRoot(w, tool, old(Contents()), faults).executed
    {
      hide RunRoot, NameAfter, IsReported;
      ghost var start := Contents();
      var ledgerBefore := ledger;
      var items := BuildPlan(w, scan);
      var executed, failed := ExecutePlan(w, items, faults);
      RunFromCells(w, start, faults, items, executed);
      FailuresOfRun(failed, items, w, tool, start, faults);
      report := ToolReport(tool, ledgerBefore, executed, failed);
    }

    /** The cells a finished run left are the run's outcome. */
    lemma RunFromCells(w: World, start: Root, faults: Faults, items: seq<Item>, executed: seq<Done>)
      requires w.WellFormed()
      requires IsPlan(w, tool, start, items)
      requires Progress(w, tool, start, faults, items, Now(), executed)
      ensures Contents() == RunRoot(w, tool, start, faults).root
      ensures backup == RunRoot(w, tool, start, faults).backups
      ensures Lists(executed, RunRoot(w, tool, start, faults).executed)
    {
      hide RunRoot, NameAfter;
      var o := RunRoot(w, tool, start, faults);
      forall n
        ensures Now().CellAt(n) == NameAfter(w, tool, start, faults, n).0
        ensures !Covers(items, n) ==> NameAfter(w, tool, start, faults, n).1.None?
        ensures Get(o.root.entries, n) == Get(entries, n) && Get(o.root.ledger, n) == Get(ledger, n)
        ensures Get(o.backups, n) == Get(backup, n) && Get(o.executed, n) == NameAfter(w, tool, start, faults, n).1
        ensures Get(o.executed, n).Some? ==> o.executed[n].name == n && o.executed[n] in executed
      {
        RunRootAt(w, tool, start, faults, n);
        if Covers(items, n) {
          var i :| 0 <= i < |items| && items[i].name == n;
          PlannedNameRuns(w, tool, start, faults, items[i]);
        } else {
          UnplannedNameIsIdle(w, tool, start, faults, n);
        }
      }
      SameLookups(o.root.entries, entries);
      SameLookups(o.root.ledger, ledger);
      SameLookups(o.backups, backup);
    }

    /** Undoes a run from its report, last item first; entries changed since the run are skipped and stay as found. */
    method RollbackTool(w: World, report: ToolReport, ghost executed: map<Name, Done>)
      requires Lists(report.executed, executed) && report.tool == tool
      modifies this
      ensures forall n :: n !in executed || ChangedSince(w, executed[n], Get(old(entries), n)) ==>
                Get(entries, n) == Get(old(entries), n)
      ensures Contents() == UndoRoot(w, tool, report.ledgerBefore, Outcome(old(Contents()), old(backup), executed))
    {
      ghost var o := Outcome(Contents(), backup, executed);
      var k := |report.executed|;
      while k > 0
        invariant 0 <= k <= |report.executed|
        invariant ledger == old(ledger)
        invariant Unwound(w, report.executed, k, o, entries, backup)
      {
        k := k - 1;
        ghost var e, b := entries, backup;
        UndoItem(w, report.executed[k]);
        UnwindStep(w, report.executed, k, o, e, b, entries, backup);
      }
      UnwoundAll(w, tool, report.ledgerBefore, report.executed, o, entries, backup);
      ChangedEntriesStay(w, tool, report.ledgerBefore, o);
      if tool.mode.CopyMode? {
        ledger := report.ledgerBefore;
      }
    }

    method UndoItem(w: World, done: Done)
      modifies this`entries, this`backup
      ensures Get(entries, done.name)
              == Undo(w, done, Cell(Get(old(entries), done.name), None, Get(old(backup), done.name), None)).0.entry
      ensures forall n :: n != done.name ==>
                Get(entries, n) == Get(old(entries), n) && Get(backup, n) == Get(old(backup), n)
    {
      var n := done.name;
      if !StillOurs(w, done, Get(entries, n)) { return; }
      if PlacesLink(done.action) || PlacesCopy(done.action) {
        entries := entries - {n};
      }
      if done.backedUp && n in backup {
        entries := entries[n := backup[n]];
        backup := backup - {n};
      }
      if done.oldLink.Some? && n !in entries {
        entries := entries[n := Link(done.oldLink.value)];
      }
    }

    /** A new run id: its backup directory and temporary names do not exist yet. */
    method StartRun()
      modifies this`backup, this`temps
      ensures backup == map[] && temps == map[]
    {
      backup, temps := map[], map[];
    }

    /** Points at the backup directory of a recorded run. */
    method OpenBackup(recorded: map<Name, Node>)
      modifies this`backup
      ensures backup == recorded
    {
      backup := recorded;
    }

    constructor (tool: Tool, entries: map<Name, Node>, ledger: map<Name, Hash>)
      ensures this.tool == tool && Contents() == Root(entries, ledger)
      ensures backup == map[] && temps == map[]
    {
      this.tool := tool;
      this.entries, this.ledger := entries, ledger;
      this.backup, this.temps := map[], map[];
    }
  }

  /** The skills of `scan` that the tool wants, planned. */
  ghost predicate Placed(w: World, tool: Tool, root: Root, scan: seq<Skill>, items: seq<Item>, wanted: set<Name>)
    requires w.WellFormed()
  {
    && DistinctItems(items)
    && (forall n :: n in wanted <==> Covers(items, n))
    && (forall n :: n in wanted <==>
         Wanted(w, tool, n, Get(root.entries, n)) && Seen(scan, n))
    && (forall i :: 0 <= i < |items| ==> PlanAt(w, tool, root, items[i].name) == Some(items[i]))
  }

  lemma PlaceStep(w: World, tool: Tool, root: Root, scan: seq<Skill>, k: nat, items: seq<Item>, wanted: set<Name>)
    requires w.WellFormed() && ScanOf(w, scan) && k < |scan|
    requires Placed(w, tool, root, scan[..k], items, wanted)
    ensures
      var skill := scan[k];
      if SkillDecision(skill, tool, skill.name in root.entries).None? then
        Placed(w, tool, root, scan[..k + 1],
               items + [PlanEntry(w, skill, tool.mode, Get(root.entries, skill.name), Get(root.ledger, skill.name))],
               wanted + {skill.name})
      else Placed(w, tool, root, scan[..k + 1], items, wanted)
  {
    var skill := scan[k];
    var item := PlanEntry(w, skill, tool.mode, Get(root.entries, skill.name), Get(root.ledger, skill.name));
    SeenAppended(scan, k);
    CoversAppended(items, item);
    if skill.topLevel {
      assert PlanAt(w, tool, root, skill.name) == Some(item)
             || !Wanted(w, tool, skill.name, Get(root.entries, skill.name));
      NotSeenYet(w, scan, k);
    }
    hide PlanEntry, PlanAt, Covers, Seen;
  }

  ghost predicate Seen(scan: seq<Skill>, n: Name) {
    exists j :: 0 <= j < |scan| && scan[j].topLevel && scan[j].name == n
  }

  lemma SeenAppended(scan: seq<Skill>, k: nat)
    requires k < |scan|
    ensures forall n :: Seen(scan[..k + 1], n) <==> Seen(scan[..k], n) || (scan[k].topLevel && scan[k].name == n)
  {
    var shorter, longer := scan[..k], scan[..k + 1];
    forall n
      ensures Seen(longer, n) <==> Seen(shorter, n) || (scan[k].topLevel && scan[k].name == n)
    {
      if Seen(shorter, n) {
        var j :| 0 <= j < |shorter| && shorter[j].topLevel && shorter[j].name == n;
        assert longer[j] == shorter[j];
      }
      if Seen(longer, n) {
        var j :| 0 <= j < |longer| && longer[j].topLevel && longer[j].name == n;
        assert j < k ==> longer[j] == shorter[j];
      }
      assert longer[k] == scan[k];
    }
  }

  lemma NotSeenYet(w: World, scan: seq<Skill>, k: nat)
    requires ScanOf(w, scan) && k < |scan| && scan[k].topLevel
    ensures !Seen(scan[..k], scan[k].name)
  {
  }

  /** The items of `executed` from `k` on have been undone; all other names are as the run left them. */
  ghost predicate Unwound(w: World, executed: seq<Done>, k: nat, o: Outcome, entries: map<Name, Node>,
                          backup: map<Name, Node>) {
    && (forall i :: k <= i < |executed| ==> Get(entries, executed[i].name) == UndoneEntry(w, o, executed[i].name))
    && (forall n :: (forall i :: k <= i < |executed| ==> executed[i].name != n)
          ==> Get(entries, n) == Get(o.root.entries, n) && Get(backup, n) == Get(o.backups, n))
  }

  lemma UnwindStep(w: World, executed: seq<Done>, k: nat, o: Outcome, e: map<Name, Node>, b: map<Name, Node>,
                   e': map<Name, Node>, b': map<Name, Node>)
    requires k < |executed| && Lists(executed, o.executed)
    requires Unwound(w, executed, k + 1, o, e, b)
    requires Get(e', executed[k].name)
             == Undo(w, executed[k], Cell(Get(e, executed[k].name), None, Get(b, executed[k].name), None)).0.entry
    requires forall n :: n != executed[k].name ==> Get(e', n) == Get(e, n) && Get(b', n) == Get(b, n)
    ensures Unwound(w, executed, k, o, e', b')
  {
    hide Undo, Get;
  }

  lemma UnwoundAll(w: World, tool: Tool, ledgerBefore: map<Name, Hash>, executed: seq<Done>, o: Outcome,
                   entries: map<Name, Node>, backup: map<Name, Node>)
    requires Lists(executed, o.executed) && Unwound(w, executed, 0, o, entries, backup)
    ensures entries == UndoRoot(w, tool, ledgerBefore, o).entries
  {
    hide Undo;
    forall n
      ensures Get(entries, n) == UndoneEntry(w, o, n)
    {
      if n in o.executed {
        var i :| 0 <= i < |executed| && executed[i] == o.executed[n];
      } else {
        assert forall i :: 0 <= i < |executed| ==> executed[i].name != n;
      }
    }
    SameLookups(entries, UndoRoot(w, tool, ledgerBefore, o).entries);
  }

  ghost predicate IsReported(failed: seq<Failure>, n: Name) {
    exists j :: 0 <= j < |failed| && failed[j].name == n
  }

  /** The planned item of `n` was to do something and was not executed. */
  ghost predicate Failing(items: seq<Item>, n: Name, w: World, tool: Tool, start: Root, faults: Faults)
    requires w.WellFormed()
  {
    && NameAfter(w, tool, start, faults, n).1.None?
    && exists i :: 0 <= i < |items| && items[i].name == n && !IsNoop(items[i].action)
  }

  /** Exactly the failing items are reported. */
  ghost predicate Reports(failed: seq<Failure>, items: seq<Item>, w: World, tool: Tool, start: Root, faults: Faults)
    requires w.WellFormed()
  {
    forall n :: IsReported(failed, n) <==> Failing(items, n, w, tool, start, faults)
  }

  lemma ReportsStep(failed: seq<Failure>, items: seq<Item>, w: World, tool: Tool, start: Root, faults: Faults, k: nat)
    requires w.WellFormed() && k < |items| && Reports(failed, items[..k], w, tool, start, faults)
    ensures
      var item := items[k];
      var fails := NameAfter(w, tool, start, faults, item.name).1.None? && !IsNoop(item.action);
      Reports(if fails then failed + [Failure(item.name, item.action)] else failed, items[..k + 1], w, tool, start,
              faults)
  {
    hide NameAfter;
    var item := items[k];
    var shorter, longer, more := items[..k], items[..k + 1], failed + [Failure(item.name, item.action)];
    assert forall i :: 0 <= i < k ==> longer[i] == shorter[i];
    assert longer[k] == item && more[|failed|].name == item.name;
    forall n
      ensures Failing(longer, n, w, tool, start, faults) <==>
                || Failing(shorter, n, w, tool, start, faults)
                || (&& n == item.name && !IsNoop(item.action)
                    && NameAfter(w, tool, start, faults, n).1.None?)
      ensures IsReported(more, n) <==> IsReported(failed, n) || n == item.name
    {
      if IsReported(failed, n) {
        var j :| 0 <= j < |failed| && failed[j].name == n;
        assert more[j].name == n;
      }
      if Failing(shorter, n, w, tool, start, faults) {
        var i :| 0 <= i < |shorter| && shorter[i].name == n && !IsNoop(shorter[i].action);
        assert longer[i].name == n;
      }
    }
  }

  lemma FailuresOfRun(failed: seq<Failure>, items: seq<Item>, w: World, tool: Tool, start: Root, faults: Faults)
    requires w.WellFormed() && IsPlan(w, tool, start, items) && Reports(failed, items, w, tool, start, faults)
    ensures forall n :: IsReported(failed, n) <==>
              && !IsNoop(ActionAt(w, tool, n, start.CellAt(n)))
              && n !in RunRoot(w, tool, start, faults).executed
  {
    hide RunRoot, NameAfter, IsReported, PlanName;
    forall n
      ensures IsReported(failed, n) <==>
                && !IsNoop(ActionAt(w, tool, n, start.CellAt(n)))
                && n !in RunRoot(w, tool, start, faults).executed
    {
      RunRootAt(w, tool, start, faults, n);
      assert PlanAt(w, tool, start, n) == PlanName(w, tool, n, start.CellAt(n).entry, start.CellAt(n).recorded);
      if PlanAt(w, tool, start, n).Some? {
        assert Covers(items, n);
      }
    }
  }

  lemma CoversAppended(items: seq<Item>, item: Item)
    ensures forall n :: Covers(items + [item], n) <==> Covers(items, n) || n == item.name
  {
    forall n
      ensures Covers(items + [item], n) <==> Covers(items, n) || n == item.name
    {
      if Covers(items, n) {
        var i :| 0 <= i < |items| && items[i].name == n;
        assert (items + [item])[i].name == n;
      }
      assert (items + [item])[|items|] == item;
    }
  }

  lemma CoversPrefix(items: seq<Item>, k: nat)
    requires k < |items|
    ensures forall n :: Covers(items[..k + 1], n) <==> Covers(items[..k], n) || n == items[k].name
  {
    assert items[..k + 1] == items[..k] + [items[k]];
    CoversAppended(items[..k], items[k]);
  }

  /** `executed` holds, once each, the record lines of the items among `items` that succeeded. */
  ghost predicate ListsPrefix(executed: seq<Done>, items: seq<Item>, w: World, tool: Tool, start: Root, faults: Faults)
    requires w.WellFormed()
  {
    && (forall i, j :: 0 <= i < j < |executed| ==> executed[i].name != executed[j].name)
    && (forall i :: 0 <= i < |executed| ==>
         Covers(items, executed[i].name) && NameAfter(w, tool, start, faults, executed[i].name).1 == Some(executed[i]))
    && (forall i :: 0 <= i < |items| && NameAfter(w, tool, start, faults, items[i].name).1.Some?
         ==> NameAfter(w, tool, start, faults, items[i].name).1.value in executed)
  }

  lemma PlannedNameRuns(w: World, tool: Tool, start: Root, faults: Faults, item: Item)
    requires w.WellFormed() && PlanAt(w, tool, start, item.name) == Some(item)
    ensures NameAfter(w, tool, start, faults, item.name)
            == if IsNoop(item.action) then (start.CellAt(item.name), None)
               else Exec(item, start.CellAt(item.name), FaultsAt(faults, item.name))
    ensures NameAfter(w, tool, start, faults, item.name).1.Some?
            ==> NameAfter(w, tool, start, faults, item.name).1.value.name == item.name
  {
  }

  lemma ExtendPrefix(w: World, tool: Tool, start: Root, faults: Faults, executed: seq<Done>, items: seq<Item>, k: nat)
    requires w.WellFormed() && IsPlan(w, tool, start, items) && k < |items|
    requires ListsPrefix(executed, items[..k], w, tool, start, faults)
    ensures
      var done := NameAfter(w, tool, start, faults, items[k].name).1;
      ListsPrefix(if done.Some? then executed + [done.value] else executed, items[..k + 1], w, tool, start, faults)
  {
    hide RunName, Exec, PlanName, NameAfter, Covers, PlanAt;
    CoversPrefix(items, k);
    PlannedNameRuns(w, tool, start, faults, items[k]);
    NotCoveredYet(items, k);
    var done := NameAfter(w, tool, start, faults, items[k].name).1;
    var longer := if done.Some? then executed + [done.value] else executed;
    forall i | 0 <= i < |longer|
      ensures Covers(items[..k + 1], longer[i].name)
      ensures NameAfter(w, tool, start, faults, longer[i].name).1 == Some(longer[i])
      ensures i < |executed| ==> longer[i].name != items[k].name
    {
      assert i < |executed| ==> longer[i] == executed[i];
    }
    var upto := items[..k + 1];
    forall i | 0 <= i < |upto| && NameAfter(w, tool, start, faults, upto[i].name).1.Some?
      ensures NameAfter(w, tool, start, faults, upto[i].name).1.value in longer
    {
      if i < k {
        assert items[..k][i] == upto[i];
      }
    }
  }

  /** Having executed the items `items` of a plan made for `start`, the disk is `now` and the record `executed`. */
  ghost predicate Progress(w: World, tool: Tool, start: Root, faults: Faults, items: seq<Item>, now: Disk,
                           executed: seq<Done>)
    requires w.WellFormed()
  {
    && (forall i :: 0 <= i < |items| ==>
          now.CellAt(items[i].name) == NameAfter(w, tool, start, faults, items[i].name).0)
    && (forall n :: !Covers(items, n) ==> now.CellAt(n) == start.CellAt(n))
    && ListsPrefix(executed, items, w, tool, start, faults)
  }

  lemma ItemIsNext(w: World, tool: Tool, start: Root, faults: Faults, items: seq<Item>, k: nat, now: Disk,
                   executed: seq<Done>)
    requires w.WellFormed() && IsPlan(w, tool, start, items) && k < |items|
    requires Progress(w, tool, start, faults, items[..k], now, executed)
    ensures PlanAt(w, tool, start, items[k].name) == Some(items[k])
    ensures now.CellAt(items[k].name) == start.CellAt(items[k].name)
  {
    NotCoveredYet(items, k);
  }

  lemma ProgressStep(w: World, tool: Tool, start: Root, faults: Faults, items: seq<Item>, k: nat, before: Disk,
                     after: Disk,
                     executed: seq<Done>)
    requires w.WellFormed() && IsPlan(w, tool, start, items) && k < |items|
    requires Progress(w, tool, start, faults, items[..k], before, executed)
    requires after.CellAt(items[k].name) == NameAfter(w, tool, start, faults, items[k].name).0
    requires OnlyChanged(items[k].name, before, after)
    ensures
      var done := NameAfter(w, tool, start, faults, items[k].name).1;
      Progress(w, tool, start, faults, items[..k + 1], after, if done.Some? then executed + [done.value] else executed)
  {
    hide NameAfter, ListsPrefix, Covers, PlanAt, Disk.CellAt, Root.CellAt;
    CoversPrefix(items, k);
    ExtendPrefix(w, tool, start, faults, executed, items, k);
    var upto := items[..k + 1];
    forall i | 0 <= i < |upto|
      ensures after.CellAt(upto[i].name) == NameAfter(w, tool, start, faults, upto[i].name).0
    {
      if i < k {
        assert items[..k][i] == upto[i];
      }
    }
  }

  lemma NotCoveredYet(items: seq<Item>, k: nat)
    requires DistinctItems(items) && k < |items|
    ensures !Covers(items[..k], items[k].name)
  {
  }

  lemma UnplannedNameIsIdle(w: World, tool: Tool, start: Root, faults: Faults, n: Name)
    requires w.WellFormed() && PlanAt(w, tool, start, n).None?
    ensures NameAfter(w, tool, start, faults, n) == (start.CellAt(n), None)
  {
  }
}
