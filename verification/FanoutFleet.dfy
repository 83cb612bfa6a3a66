/** A fan-out run over all configured tools, the retention of its backups and records, and its rollback. */
module FanoutFleet {
  import opened Common
  import opened FanoutPlan
  import opened FanoutCell
  import opened FanoutRuns
  import opened FanoutState

  type RunId = nat

  const KEEP_BACKUP_RUNS: nat := 5
  const KEEP_RUN_RECORDS: nat := 200

  datatype ToolLine = Skipped(id: ToolId) | Ran(report: ToolReport)
  datatype RunRecord = RunRecord(run: RunId, tools: seq<ToolLine>)

  /** How many runs in `runs` are newer than `r`. */
  function Newer(runs: set<RunId>, r: RunId): nat {
    |set x | x in runs && x > r|
  }

  /** Deletes the oldest runs until at most `keep` are left: exactly the runs with fewer than `keep` newer ones stay. */
  method KeepNewest<V>(m: map<RunId, V>, keep: nat) returns (kept: map<RunId, V>)
    ensures forall r :: r in kept <==> r in m && Newer(m.Keys, r) < keep
    ensures forall r :: r in kept ==> kept[r] == m[r]
  {
    kept := m;
    while |kept| > keep
      invariant kept.Keys <= m.Keys
      invariant forall r :: r in kept ==> kept[r] == m[r]
      invariant forall r, x :: r in m && r !in kept && x in kept ==> r < x
      invariant forall r :: r in m && r !in kept ==> Newer(m.Keys, r) >= keep
    {
      var oldest := Oldest(kept.Keys);
      CountNewer(m.Keys, kept.Keys, oldest);
      kept := kept - {oldest};
    }
    forall r | r in kept
      ensures Newer(m.Keys, r) < keep
    {
      SurvivorsCount(m.Keys, kept.Keys, r);
    }
  }

  method Oldest(runs: set<RunId>) returns (oldest: RunId)
    requires runs != {}
    ensures oldest in runs && forall r :: r in runs ==> oldest <= r
  {
    oldest :| oldest in runs;
    var rest := runs - {oldest};
    while rest != {}
      invariant rest <= runs && oldest in runs
      invariant forall r :: r in runs && r !in rest ==> oldest <= r
    {
      var r :| r in rest;
      rest := rest - {r};
      if r < oldest {
        oldest := r;
      }
    }
  }

  lemma SubsetSize(a: set<RunId>, b: set<RunId>)
    requires a <= b
    ensures |a| <= |b|
  {
    assert b == a + (b - a);
  }

  lemma CountNewer(all: set<RunId>, kept: set<RunId>, oldest: RunId)
    requires kept <= all && oldest in kept
    requires forall r :: r in kept ==> oldest <= r
    ensures Newer(all, oldest) >= |kept| - 1
  {
    SubsetSize(kept - {oldest}, set x | x in all && x > oldest);
  }

  lemma SurvivorsCount(all: set<RunId>, kept: set<RunId>, r: RunId)
    requires kept <= all && r in kept
    requires forall d, x :: d in all && d !in kept && x in kept ==> d < x
    ensures Newer(all, r) < |kept|
  {
    var newer := set x | x in all && x > r;
    assert newer <= kept - {r};
    SubsetSize(newer, kept - {r});
  }

  /** The newest run has no newer one, so no run can prune its own backups. */
  lemma NewestHasNoNewer(runs: set<RunId>, run: RunId)
    requires forall r :: r in runs ==> r <= run
    ensures Newer(runs, run) == 0
  {
    assert (set x | x in runs && x > run) == {};
  }

  /** The other runs stay exactly as long as fewer than `keep` are newer, the one that just ended among them if kept. */
  ghost predicate Retains<V>(before: map<RunId, V>, after: map<RunId, V>, run: RunId, keep: nat) {
    forall r :: r != run ==>
      Get(after, r) ==
        if r in before && Newer(before.Keys + (if run in after then {run} else {}), r) < keep
        then Some(before[r]) else None
  }

  ghost predicate Independent(dirs: seq<ToolDir>) {
    forall i, j :: 0 <= i < j < |dirs| ==> dirs[i] != dirs[j] && dirs[i].tool.id != dirs[j].tool.id
  }

  function FaultsOf(faults: map<ToolId, Faults>, id: ToolId): Faults {
    if id in faults then faults[id] else map[]
  }

  /** What a run makes of one tool. */
  function ToolOutcome(w: World, tool: Tool, root: Root, faults: map<ToolId, Faults>): Outcome
    requires w.WellFormed()
  {
    if tool.usable then RunRoot(w, tool, root, FaultsOf(faults, tool.id)) else Outcome(root, map[], map[])
  }

  /** `line` is the record line of a run whose effect on this tool was `o`. */
  ghost predicate LineFor(line: ToolLine, tool: Tool, before: Root, o: Outcome) {
    if tool.usable then
      && line.Ran? && line.report.tool == tool
      && line.report.ledgerBefore == before.ledger && Lists(line.report.executed, o.executed)
    else line == Skipped(tool.id)
  }

  ghost function ContentsOf(dirs: seq<ToolDir>): (roots: seq<Root>)
    reads dirs
    ensures |roots| == |dirs| && forall i :: 0 <= i < |dirs| ==> roots[i] == dirs[i].Contents()
  {
    seq(|dirs|, i requires 0 <= i < |dirs| reads dirs => dirs[i].Contents())
  }

  class Fleet {
    var backups: map<RunId, map<ToolId, map<Name, Node>>>
    var records: map<RunId, RunRecord>

    ghost predicate OldRuns(run: RunId)
      reads this
    {
      && (forall r :: r in backups ==> r < run)
      && (forall r :: r in records ==> r < run)
    }

    /** Plans and executes every usable tool; returns the record lines and the run's backups. */
    method RunTools(dirs: seq<ToolDir>, w: World, scan: seq<Skill>, faults: map<ToolId, Faults>)
      returns (lines: seq<ToolLine>, mine: map<ToolId, map<Name, Node>>)
      requires w.WellFormed() && ScanOf(w, scan) && Independent(dirs)
      modifies dirs
      ensures |lines| == |dirs|
      ensures forall i :: 0 <= i < |dirs| ==>
                Finished(w, dirs[i].tool, old(ContentsOf(dirs))[i], faults, dirs[i].Contents(), lines[i], mine)
      ensures mine.Keys <= IdsOf(dirs, |dirs|)
    {
      ghost var before := ContentsOf(dirs);
      lines, mine := [], map[];
      hide RunRoot, LineFor, IdsOf, ToolOutcome, Finished;
      for k := 0 to |dirs|
        invariant |lines| == k
        invariant forall i :: k <= i < |dirs| ==> dirs[i].Contents() == before[i]
        invariant forall i :: 0 <= i < k ==>
          Finished(w, dirs[i].tool, before[i], faults, dirs[i].Contents(), lines[i], mine)
        invariant forall i :: k <= i < |dirs| ==> Get(mine, dirs[i].tool.id).None?
        invariant mine.Keys <= IdsOf(dirs, k)
      {
        ghost var roots, mineBefore := ContentsOf(dirs), mine;
        var line;
        line, mine := RunOne(dirs[k], w, scan, faults, mine);
        lines := lines + [line];
        assert forall i :: 0 <= i < |dirs| && i != k ==> dirs[i].Contents() == roots[i];
        assert forall i :: 0 <= i < |dirs| && i != k ==> Get(mine, dirs[i].tool.id) == Get(mineBefore, dirs[i].tool.id);
        OneMoreId(dirs, k);
        forall i | 0 <= i < k {
          FinishedStays(w, dirs[i].tool, before[i], faults, dirs[i].Contents(), lines[i], mineBefore, mine);
        }
      }
    }

    method RunOne(dir: ToolDir, w: World, scan: seq<Skill>, faults: map<ToolId, Faults>,
                  mine0: map<ToolId, map<Name, Node>>)
      returns (line: ToolLine, mine: map<ToolId, map<Name, Node>>)
      requires w.WellFormed() && ScanOf(w, scan) && Get(mine0, dir.tool.id).None?
      modifies dir
      ensures Finished(w, dir.tool, old(dir.Contents()), faults, dir.Contents(), line, mine)
      ensures forall id :: id != dir.tool.id ==> Get(mine, id) == Get(mine0, id)
      ensures mine.Keys <= mine0.Keys + {dir.tool.id}
    {
      hide RunRoot, Lists;
      mine := mine0;
      if !dir.tool.usable {
        return Skipped(dir.tool.id), mine;
      }
      dir.StartRun();
      var report := dir.RunTool(w, scan, FaultsOf(faults, dir.tool.id));
      line := Ran(report);
      if dir.backup != map[] {
        mine := mine[dir.tool.id := dir.backup];
      }
    }

    /** Keeps the backups a run made and prunes the oldest runs; the run's own backups are never among them. */
    method StoreBackups(run: RunId, mine: map<ToolId, map<Name, Node>>)
      requires forall r :: r in backups ==> r < run
      modifies this`backups
      ensures Get(backups, run) == if mine == map[] then None else Some(mine)
      ensures Retains(old(backups), backups, run, KEEP_BACKUP_RUNS)
    {
      var full := if mine == map[] then backups else backups[run := mine];
      assert full.Keys == backups.Keys + (if mine == map[] then {} else {run});
      if mine != map[] {
        NewestHasNoNewer(full.Keys, run);
      }
      backups := KeepNewest(full, KEEP_BACKUP_RUNS);
    }

    /** Keeps the record of a run and prunes the oldest ones. */
    method StoreRecord(record: RunRecord)
      requires forall r :: r in records ==> r < record.run
      modifies this`records
      ensures Get(records, record.run) == Some(record)
      ensures Retains(old(records), records, record.run, KEEP_RUN_RECORDS)
    {
      var full := records[record.run := record];
      assert full.Keys == records.Keys + {record.run};
      NewestHasNoNewer(full.Keys, record.run);
      records := KeepNewest(full, KEEP_RUN_RECORDS);
    }

    /** Keeps the backups and the record of a run. */
    method StoreRun(record: RunRecord, mine: map<ToolId, map<Name, Node>>)
      requires OldRuns(record.run)
      modifies this
      ensures forall id :: BackupOf(record.run, id) == OwnBackups(mine, id)
      ensures record.run in backups <==> mine != map[]
      ensures Retains(old(backups), backups, record.run, 5)
      ensures record.run in records && records[record.run] == record
      ensures Retains(old(records), records, record.run, 200)
    {
      hide Retains;
      StoreBackups(record.run, mine);
      StoreRecord(record);
      assert Get(backups, record.run) == if mine == map[] then None else Some(mine);
      assert Get(records, record.run) == Some(record);
    }

    /** Every tool in turn; then the oldest backups and records are pruned. */
    method RunFanout(dirs: seq<ToolDir>, w: World, scan: seq<Skill>, faults: map<ToolId, Faults>, run: RunId)
      returns (record: RunRecord)
      requires w.WellFormed() && ScanOf(w, scan) && Independent(dirs) && OldRuns(run)
      modifies this, dirs
      ensures forall i :: 0 <= i < |dirs| ==>
                dirs[i].Contents() == ToolOutcome(w, dirs[i].tool, old(ContentsOf(dirs))[i], faults).root
      ensures record.run == run && |record.tools| == |dirs|
      ensures forall i :: 0 <= i < |dirs| ==>
                var before := old(ContentsOf(dirs))[i];
                var o := ToolOutcome(w, dirs[i].tool, before, faults);
                LineFor(record.tools[i], dirs[i].tool, before, o) && BackupOf(run, dirs[i].tool.id) == o.backups
      ensures run in backups <==>
                exists i :: 0 <= i < |dirs| && BacksUp(w, dirs[i].tool, old(ContentsOf(dirs))[i], faults)
      ensures Retains(old(backups), backups, run, 5)
      ensures run in records && records[run] == record
      ensures Retains(old(records), records, run, 200)
    {
      hide *;
      ghost var before := ContentsOf(dirs);
      var lines, mine := RunTools(dirs, w, scan, faults);
      ghost var after := ContentsOf(dirs);
      forall i | 0 <= i < |dirs| {
        FinishedMeans(w, dirs[i].tool, before[i], faults, after[i], lines[i], mine);
      }
      ghost var tools := seq(|dirs|, i requires 0 <= i < |dirs| => dirs[i].tool);
      IdsOfTools(dirs, tools);
      MineIffBacksUp(w, tools, before, faults, lines, after, mine);
      record := RunRecord(run, lines);
      StoreRun(record, mine);
      assert forall i :: 0 <= i < |dirs| ==> dirs[i].Contents() == after[i];
    }

    /** Undoes a recorded run, tools and items in reverse order; entries changed since the run stay as found. */
    method RollbackFanout(record: RunRecord, dirs: seq<ToolDir>, w: World, ghost outcomes: seq<Outcome>,
                          ghost before: seq<Root>)
      requires Independent(dirs) && |record.tools| == |dirs| == |outcomes| == |before|
      requires forall i :: 0 <= i < |dirs| ==> LineFor(record.tools[i], dirs[i].tool, before[i], outcomes[i])
      modifies dirs
      ensures forall i :: 0 <= i < |dirs| ==>
                dirs[i].Contents() ==
                  if dirs[i].tool.usable then
                    UndoRoot(w, dirs[i].tool, before[i].ledger,
                             Outcome(old(ContentsOf(dirs))[i], BackupOf(record.run, dirs[i].tool.id),
                                     outcomes[i].executed))
                  else old(ContentsOf(dirs))[i]
      ensures forall i, n :: 0 <= i < |dirs| && Unrestorable(w, outcomes[i], old(ContentsOf(dirs))[i], n) ==>
                Get(dirs[i].Contents().entries, n) == Get(old(ContentsOf(dirs))[i].entries, n)
    {
      ghost var start := ContentsOf(dirs);
      var k := |dirs|;
      while k > 0
        invariant 0 <= k <= |dirs|
        invariant forall i :: 0 <= i < k ==> dirs[i].Contents() == start[i]
        invariant forall i :: k <= i < |dirs| ==>
                    dirs[i].Contents() ==
                      if dirs[i].tool.usable then
                        UndoRoot(w, dirs[i].tool, before[i].ledger,
                                 Outcome(start[i], BackupOf(record.run, dirs[i].tool.id), outcomes[i].executed))
                      else start[i]
      {
        k := k - 1;
        var dir := dirs[k];
        ghost var roots := ContentsOf(dirs);
        if record.tools[k].Ran? {
          dir.OpenBackup(BackupOf(record.run, dir.tool.id));
          dir.RollbackTool(w, record.tools[k].report, outcomes[k].executed);
        }
        assert forall i :: 0 <= i < |dirs| && i != k ==> dirs[i].Contents() == roots[i];
      }
      forall i | 0 <= i < |dirs| {
        ChangedEntriesStay(w, dirs[i].tool, before[i].ledger,
          Outcome(start[i], BackupOf(record.run, dirs[i].tool.id), outcomes[i].executed));
      }
    }

    function BackupOf(run: RunId, id: ToolId): map<Name, Node>
      reads this
    {
      if run in backups && id in backups[run] then backups[run][id] else map[]
    }

    /** A run followed by its rollback leaves every tool directory and every ledger as before the run. */
    method RunThenRollback(dirs: seq<ToolDir>, w: World, scan: seq<Skill>, faults: map<ToolId, Faults>, run: RunId)
      requires w.WellFormed() && ScanOf(w, scan) && Independent(dirs) && OldRuns(run)
      requires forall i :: 0 <= i < |dirs| && dirs[i].tool.usable ==>
                 NoDoubleFault(w, dirs[i].tool, dirs[i].Contents(), FaultsOf(faults, dirs[i].tool.id))
      modifies this, dirs
      ensures forall i :: 0 <= i < |dirs| ==> dirs[i].Contents() == old(ContentsOf(dirs))[i]
    {
      hide RunRoot, UndoRoot, LineFor, Retains, Unrestorable, BacksUp, NoDoubleFault;
      ghost var before := ContentsOf(dirs);
      ghost var outcomes := seq(|dirs|, i requires 0 <= i < |dirs| => ToolOutcome(w, dirs[i].tool, before[i], faults));
      var record := RunFanout(dirs, w, scan, faults, run);
      ghost var after := ContentsOf(dirs);
      forall i | 0 <= i < |dirs| && dirs[i].tool.usable
        ensures UndoRoot(w, dirs[i].tool, before[i].ledger,
                         Outcome(after[i], BackupOf(record.run, dirs[i].tool.id), outcomes[i].executed)) == before[i]
      {
        RollbackRestoresRoot(w, dirs[i].tool, before[i], FaultsOf(faults, dirs[i].tool.id));
        assert Outcome(after[i], BackupOf(record.run, dirs[i].tool.id), outcomes[i].executed) == outcomes[i];
      }
      RollbackFanout(record, dirs, w, outcomes, before);
    }
  }

  /** The run did not execute an item for this entry, or the entry has changed since. */
  predicate Unrestorable(w: World, o: Outcome, now: Root, n: Name) {
    n !in o.executed || ChangedSince(w, o.executed[n], Get(now.entries, n))
  }

  /** The run makes backups for this tool. */
  ghost predicate BacksUp(w: World, tool: Tool, before: Root, faults: map<ToolId, Faults>)
    requires w.WellFormed()
  {
    ToolOutcome(w, tool, before, faults).backups != map[]
  }

  /** The tools of the first `k` directories. */
  ghost function IdsOf(dirs: seq<ToolDir>, k: nat): set<ToolId>
    requires k <= |dirs|
  {
    set i | 0 <= i < k :: dirs[i].tool.id
  }

  lemma OneMoreId(dirs: seq<ToolDir>, k: nat)
    requires k < |dirs|
    ensures IdsOf(dirs, k + 1) == IdsOf(dirs, k) + {dirs[k].tool.id}
  {
  }

  lemma IdsOfTools(dirs: seq<ToolDir>, tools: seq<Tool>)
    requires |tools| == |dirs| && forall i :: 0 <= i < |dirs| ==> tools[i] == dirs[i].tool
    ensures IdsOf(dirs, |dirs|) == set i | 0 <= i < |tools| :: tools[i].id
  {
  }

  lemma FinishedStays(w: World, tool: Tool, before: Root, faults: map<ToolId, Faults>, after: Root, line: ToolLine,
                      mine: map<ToolId, map<Name, Node>>, more: map<ToolId, map<Name, Node>>)
    requires w.WellFormed() && Finished(w, tool, before, faults, after, line, mine)
    requires Get(more, tool.id) == Get(mine, tool.id)
    ensures Finished(w, tool, before, faults, after, line, more)
  {
  }

  lemma FinishedMeans(w: World, tool: Tool, before: Root, faults: map<ToolId, Faults>, after: Root, line: ToolLine,
                      mine: map<ToolId, map<Name, Node>>)
    requires w.WellFormed() && Finished(w, tool, before, faults, after, line, mine)
    ensures
      var o := ToolOutcome(w, tool, before, faults);
      after == o.root && LineFor(line, tool, before, o) && OwnBackups(mine, tool.id) == o.backups
  {
    assert Get(mine, tool.id).Some? <==> tool.id in mine;
  }

  function OwnBackups(mine: map<ToolId, map<Name, Node>>, id: ToolId): map<Name, Node> {
    if id in mine then mine[id] else map[]
  }

  /** The run's backups are empty exactly when no tool made any. */
  lemma MineIffBacksUp(w: World, tools: seq<Tool>, before: seq<Root>, faults: map<ToolId, Faults>,
                       lines: seq<ToolLine>, after: seq<Root>, mine: map<ToolId, map<Name, Node>>)
    requires w.WellFormed() && |tools| == |before| == |lines| == |after|
    requires forall i :: 0 <= i < |tools| ==> Finished(w, tools[i], before[i], faults, after[i], lines[i], mine)
    requires mine.Keys <= set i | 0 <= i < |tools| :: tools[i].id
    ensures mine != map[] <==> exists i :: 0 <= i < |tools| && BacksUp(w, tools[i], before[i], faults)
  {
    hide ToolOutcome, LineFor;
    if mine != map[] {
      var id :| id in mine;
      var i :| 0 <= i < |tools| && tools[i].id == id;
      assert Get(mine, tools[i].id).Some? && BacksUp(w, tools[i], before[i], faults);
    }
    if i :| 0 <= i < |tools| && BacksUp(w, tools[i], before[i], faults) {
      assert Get(mine, tools[i].id).Some?;
    }
  }

  ghost predicate Finished(w: World, tool: Tool, before: Root, faults: map<ToolId, Faults>, after: Root, line: ToolLine,
                           mine: map<ToolId, map<Name, Node>>)
    requires w.WellFormed()
  {
    var o := ToolOutcome(w, tool, before, faults);
    && after == o.root
    && LineFor(line, tool, before, o)
    && Get(mine, tool.id) == if o.backups == map[] then None else Some(o.backups)
  }
}
