/**
 Replacing the links of consumer tools into the legacy root by copies of the central skills, all or nothing.

 Every primitive is atomic and may fail, and so may every write of the migration record.
 */
module LegacyMigration {
  import opened Common

  type Target = string
  type Tree = string
  type BackupPath = (string, string)   // tool and skill

  datatype Node = Link(raw: string) | Dir(tree: Tree)

  datatype Prim = ReadLink | CopyTree | MakeBackup | Unlink | RenameTemp | RemoveTemp | Relink

  /** One detachable link; `source` is `None` when the skill is missing from the central stage. */
  datatype Job = Job(target: Target, backup: BackupPath, source: Option<Tree>)

  datatype Disk = Disk(nodes: map<Target, Node>, temps: map<Target, Tree>, backups: map<BackupPath, string>)

  datatype Moved = Moved(target: Target, backup: BackupPath)

  /** A failed replacement says whether the handler left the link removed. */
  datatype Replaced = Done(moved: Moved) | Failed(lost: bool)

  function Replace(d: Disk, job: Job, f: set<Prim>): (Disk, Replaced) {
    var t := job.target;
    if job.source.None? || t !in d.nodes || !d.nodes[t].Link? || ReadLink in f then (d, Failed(false))
    else if job.backup in d.backups || t in d.temps || CopyTree in f then (d, Failed(false))
    else
      var staged := d.temps[t := job.source.value];
      var temps := if RemoveTemp in f then staged else d.temps;
      var backups := d.backups[job.backup := d.nodes[t].raw];
      if MakeBackup in f then (d.(temps := temps), Failed(false))
      else if Unlink in f then (Disk(d.nodes, temps, backups), Failed(false))
      else if RenameTemp in f then
        if RemoveTemp in f || Relink in f then (Disk(d.nodes - {t}, temps, backups), Failed(true))
        else (Disk(d.nodes, temps, backups), Failed(false))
      else (Disk(d.nodes[t := Dir(job.source.value)], d.temps, backups), Done(Moved(t, job.backup)))
  }

  /** What fails while a link is replaced, and whether the record write after it fails. */
  datatype Fault = Fault(prims: set<Prim>, recordFails: bool)

  datatype Outcome = Outcome(disk: Disk, applied: seq<Moved>, complete: bool, lost: Option<Target>)

  function Run(d: Disk, jobs: seq<Job>, faults: seq<Fault>): Outcome
    requires |faults| == |jobs|
    decreases |jobs|
  {
    if jobs == [] then Outcome(d, [], true, None)
    else
      match Replace(d, jobs[0], faults[0].prims)
      case (d1, Failed(lost)) => Outcome(d1, [], false, if lost then Some(jobs[0].target) else None)
      case (d1, Done(moved)) =>
        if faults[0].recordFails then Outcome(d1, [moved], false, None)
        else
          var rest := Run(d1, jobs[1..], faults[1..]);
          rest.(applied := [moved] + rest.applied)
  }

  /** What fails while links are put back. */
  datatype RollbackFaults = RollbackFaults(keepsCopy: set<Target>, losesLink: set<Target>)

  function PutBack(nodes: map<Target, Node>, backups: map<BackupPath, string>, m: Moved,
                   rf: RollbackFaults): map<Target, Node> {
    if m.target in rf.keepsCopy then nodes
    else if m.backup !in backups || m.target in rf.losesLink then nodes - {m.target}
    else nodes[m.target := Link(backups[m.backup])]
  }

  function PutAllBack(nodes: map<Target, Node>, backups: map<BackupPath, string>, applied: seq<Moved>,
                      rf: RollbackFaults)
    : map<Target, Node>
    decreases |applied|
  {
    if applied == [] then nodes
    else PutAllBack(PutBack(nodes, backups, applied[|applied| - 1], rf), backups, applied[..|applied| - 1], rf)
  }

  datatype Status = Complete | RolledBackAfterFailure | FailedStatus

  class ConsumerLinks {
    var nodes: map<Target, Node>
    var temps: map<Target, Tree>
    var backups: map<BackupPath, string>

    function Now(): Disk
      reads this
    {
      Disk(nodes, temps, backups)
    }

    method ReplaceLegacyLink(job: Job, f: set<Prim>) returns (r: Replaced)
      modifies this
      ensures (Now(), r) == Replace(old(Now()), job, f)
    {
      var t := job.target;
      if job.source.None? || t !in nodes || !nodes[t].Link? || ReadLink in f { return Failed(false); }
      var raw := nodes[t].raw;
      if job.backup in backups || t in temps || CopyTree in f { return Failed(false); }
      temps := temps[t := job.source.value];
      if MakeBackup !in f {
        backups := backups[job.backup := raw];
        if Unlink !in f {
          nodes := nodes - {t};
          if RenameTemp !in f {
            nodes := nodes[t := Dir(temps[t])];
            temps := temps - {t};
            assert temps == old(temps) && nodes == old(nodes)[t := Dir(job.source.value)];
            return Done(Moved(t, job.backup));
          }
        }
      }
      if RemoveTemp in f { return Failed(t !in nodes); }
      temps := temps - {t};
      assert temps == old(temps);
      if t !in nodes && job.backup in backups {
        if Relink in f { return Failed(true); }
        nodes := nodes[t := Link(raw)];
      }
      assert nodes == old(nodes);
      return Failed(false);
    }

    method RollbackAppliedLinks(applied: seq<Moved>, rf: RollbackFaults) returns (errors: nat)
      modifies this
      ensures nodes == PutAllBack(old(nodes), old(backups), applied, rf)
      ensures temps == old(temps) && backups == old(backups)
      ensures errors == 0 <==>
                forall m :: m in applied ==>
                  m.target !in rf.keepsCopy && m.target !in rf.losesLink && m.backup in backups
    {
      errors := 0;
      var i := |applied|;
      assert applied[..i] == applied;
      while i > 0
        invariant 0 <= i <= |applied|
        invariant PutAllBack(old(nodes), old(backups), applied, rf) == PutAllBack(nodes, backups, applied[..i], rf)
        invariant temps == old(temps) && backups == old(backups)
        invariant errors == 0 <==>
                    forall j :: i <= j < |applied| ==>
                      applied[j].target !in rf.keepsCopy && applied[j].target !in rf.losesLink
                        && applied[j].backup in backups
      {
        i := i - 1;
        var m := applied[i];
        ghost var before := nodes;
        assert applied[..i + 1][i] == m && applied[..i + 1][..i] == applied[..i];
        if m.target in rf.keepsCopy {
          errors := errors + 1;
        } else {
          nodes := nodes - {m.target};
          if m.backup !in backups || m.target in rf.losesLink {
            errors := errors + 1;
          } else {
            nodes := nodes[m.target := Link(backups[m.backup])];
          }
        }
        assert nodes == PutBack(before, backups, m, rf);
      }
    }

    method ReplaceAll(jobs: seq<Job>, faults: seq<Fault>) returns (applied: seq<Moved>, complete: bool,
                      ghost lost: Option<Target>)
      requires |faults| == |jobs|
      modifies this
      ensures Outcome(Now(), applied, complete, lost) == Run(old(Now()), jobs, faults)
    {
      applied, lost := [], None;
      var i := 0;
      while i < |jobs|
        invariant 0 <= i <= |jobs|
        invariant Run(old(Now()), jobs, faults) == Continued(applied, Run(Now(), jobs[i..], faults[i..]))
      {
        assert jobs[i..][0] == jobs[i] && jobs[i..][1..] == jobs[i + 1..];
        assert faults[i..][0] == faults[i] && faults[i..][1..] == faults[i + 1..];
        var r := ReplaceLegacyLink(jobs[i], faults[i].prims);
        match r {
          case Failed(isLost) => return applied, false, if isLost then Some(jobs[i].target) else None;
          case Done(moved) =>
            ghost var rest := Run(Now(), jobs[i + 1..], faults[i + 1..]).applied;
            assert applied + ([moved] + rest) == (applied + [moved]) + rest;
            applied := applied + [moved];
            if faults[i].recordFails { return applied, false, None; }
        }
        i := i + 1;
      }
      return applied, true, None;
    }

    /** The whole migration: any failure, including that of the last record write, puts every replaced link back. */
    method ExecuteMigration(jobs: seq<Job>, faults: seq<Fault>, lastRecordFails: bool, rf: RollbackFaults)
      returns (status: Status)
      requires |faults| == |jobs|
      modifies this
      ensures
        var o := Run(old(Now()), jobs, faults);
        && temps == o.disk.temps && backups == o.disk.backups
        && (status == Complete <==> o.complete && !lastRecordFails)
        && (status == Complete ==> nodes == o.disk.nodes)
        && (status == Complete <==>
              && Ready(old(Now()), jobs) && (forall i :: 0 <= i < |jobs| ==> Continues(faults[i])) && !lastRecordFails)
        && (status != Complete ==>
              (nodes == old(nodes)
               <==> forall i: nat :: i < |jobs| && Begins(old(Now()), jobs, faults, i) ==>
                     EndsWell(jobs[i], faults[i], rf)))
        && (status != Complete ==> nodes == PutAllBack(o.disk.nodes, o.disk.backups, o.applied, rf))
        && (status == FailedStatus <==>
              && status != Complete
              && exists m :: m in o.applied && (m.target in rf.keepsCopy || m.target in rf.losesLink))
    {
      hide Run, PutAllBack, Ready, Continues, Begins, EndsWell;
      RunCompletesIff(Now(), jobs, faults);
      FailedMigrationRestoresLinks(Now(), jobs, faults, rf);
      var applied, complete, lost := ReplaceAll(jobs, faults);
      if complete && !lastRecordFails { return Complete; }
      RunTraces(old(Now()), jobs, faults);
      var errors := RollbackAppliedLinks(applied, rf);
      return if errors == 0 then RolledBackAfterFailure else FailedStatus;
    }
  }

  function Continued(applied: seq<Moved>, rest: Outcome): Outcome {
    rest.(applied := applied + rest.applied)
  }

  // ----- all or nothing --------------------------------------------------------------------------------

  ghost predicate MovedTo(applied: seq<Moved>, t: Target) {
    exists m :: m in applied && m.target == t
  }

  /** Replaced links are distinct, hold copies now, and have their old text in their backups; nothing else changed. */
  ghost predicate Traces(o: Outcome, d: Disk) {
    && (forall b :: b in d.backups ==> b in o.disk.backups && o.disk.backups[b] == d.backups[b])
    && (forall m :: m in o.applied ==>
          && m.backup in o.disk.backups && Get(d.nodes, m.target) == Some(Link(o.disk.backups[m.backup]))
          && Get(o.disk.nodes, m.target).Some? && o.disk.nodes[m.target].Dir?)
    && (forall i, j :: 0 <= i < j < |o.applied| ==> o.applied[i].target != o.applied[j].target)
    && (forall t :: o.lost == Some(t) ==>
          !MovedTo(o.applied, t) && t in d.nodes && d.nodes[t].Link? && t !in o.disk.nodes)
    && (forall t :: !MovedTo(o.applied, t) && o.lost != Some(t) ==> Get(o.disk.nodes, t) == Get(d.nodes, t))
  }

  lemma MovedToMore(first: Moved, rest: seq<Moved>)
    ensures forall t :: MovedTo([first] + rest, t) <==> t == first.target || MovedTo(rest, t)
  {
    assert first in [first] + rest;
    assert forall m :: m in [first] + rest <==> m == first || m in rest;
  }

  /** One replacement: what it did to the disk. */
  lemma ReplacedLink(d: Disk, job: Job, f: set<Prim>)
    ensures
      var (d1, r) := Replace(d, job, f);
      && (forall b :: b in d.backups ==> b in d1.backups && d1.backups[b] == d.backups[b])
      && (forall t :: t != job.target ==> Get(d1.nodes, t) == Get(d.nodes, t))
      && (r == Failed(false) ==> d1.nodes == d.nodes)
      && (r == Failed(true) ==> job.target in d.nodes && d.nodes[job.target].Link? && job.target !in d1.nodes)
      && (r.Done? ==>
            && r.moved == Moved(job.target, job.backup) && job.backup !in d.backups && job.backup in d1.backups
              && job.source.Some?
            && Get(d.nodes, job.target) == Some(Link(d1.backups[job.backup]))
            && Get(d1.nodes, job.target) == Some(Dir(job.source.value)))
  {
  }

  /** `d1` is `d` with one more link replaced. */
  ghost predicate Moves(d: Disk, d1: Disk, m: Moved) {
    && (forall b :: b in d.backups ==> b in d1.backups && d1.backups[b] == d.backups[b])
    && (forall t :: t != m.target ==> Get(d1.nodes, t) == Get(d.nodes, t))
    && m.backup in d1.backups && Get(d.nodes, m.target) == Some(Link(d1.backups[m.backup]))
    && m.target in d1.nodes && d1.nodes[m.target].Dir?
  }

  lemma OneMoreMove(d: Disk, d1: Disk, m: Moved, rest: Outcome)
    requires Moves(d, d1, m) && Traces(rest, d1)
    ensures Traces(rest.(applied := [m] + rest.applied), d)
  {
    hide MovedTo;
    MovedToMore(m, rest.applied);
    var all := [m] + rest.applied;
    assert forall x :: x in rest.applied ==> x.target != m.target && Get(d.nodes, x.target) == Get(d1.nodes, x.target);
    NotMovedTo(rest.applied, m.target);
    assert rest.lost != Some(m.target);
    assert Get(rest.disk.nodes, m.target) == Get(d1.nodes, m.target);
    forall i, j | 0 <= i < j < |all|
      ensures all[i].target != all[j].target
    {
      assert all[j] == rest.applied[j - 1] && all[j] in rest.applied;
    }
    assert forall t :: rest.lost == Some(t) ==> Get(d.nodes, t) == Get(d1.nodes, t);
  }

  lemma NotMovedTo(applied: seq<Moved>, t: Target)
    requires forall m :: m in applied ==> m.target != t
    ensures !MovedTo(applied, t)
  {
  }

  lemma {:induction false} RunTraces(d: Disk, jobs: seq<Job>, faults: seq<Fault>)
    requires |faults| == |jobs|
    ensures Traces(Run(d, jobs, faults), d)
    decreases |jobs|
  {
    hide Replace;
    if jobs != [] {
      var (d1, r) := Replace(d, jobs[0], faults[0].prims);
      ReplacedLink(d, jobs[0], faults[0].prims);
      if r.Done? {
        if faults[0].recordFails {
          OneMoreMove(d, d1, r.moved, Outcome(d1, [], false, None));
        } else {
          RunTraces(d1, jobs[1..], faults[1..]);
          OneMoreMove(d, d1, r.moved, Run(d1, jobs[1..], faults[1..]));
        }
      }
    }
  }

  /** What a rollback leaves at a replaced link. */
  function Restored(current: Option<Node>, backups: map<BackupPath, string>, m: Moved,
                    rf: RollbackFaults): Option<Node> {
    if m.target in rf.keepsCopy then current
    else if m.backup !in backups || m.target in rf.losesLink then None
    else Some(Link(backups[m.backup]))
  }

  lemma PutBackAt(nodes: map<Target, Node>, backups: map<BackupPath, string>, m: Moved, rf: RollbackFaults, t: Target)
    ensures Get(PutBack(nodes, backups, m, rf), t) ==
              if t == m.target then Restored(Get(nodes, t), backups, m, rf) else Get(nodes, t)
  {
  }

  /** A rollback decides every replaced link on its own. */
  lemma {:induction false} PutAllBackAt(nodes: map<Target, Node>, backups: map<BackupPath, string>,
                                        applied: seq<Moved>, rf: RollbackFaults, t: Target)
    requires forall i, j :: 0 <= i < j < |applied| ==> applied[i].target != applied[j].target
    ensures !MovedTo(applied, t) ==> Get(PutAllBack(nodes, backups, applied, rf), t) == Get(nodes, t)
    ensures forall i :: 0 <= i < |applied| && applied[i].target == t ==>
              Get(PutAllBack(nodes, backups, applied, rf), t) == Restored(Get(nodes, t), backups, applied[i], rf)
    decreases |applied|
  {
    hide PutBack, Restored;
    if applied != [] {
      var n := |applied| - 1;
      var last, earlier := applied[n], applied[..n];
      assert last in applied && forall m :: m in earlier ==> m in applied;
      PutBackAt(nodes, backups, last, rf, t);
      PutAllBackAt(PutBack(nodes, backups, last, rf), backups, earlier, rf, t);
      assert t == last.target ==> !MovedTo(earlier, t);
    }
  }

  /** The replaced link at `t` cannot be put back. */
  predicate RollbackFails(t: Target, rf: RollbackFaults) {
    t in rf.keepsCopy || t in rf.losesLink
  }

  /** In terms of the outcome: everything is put back unless a link was lost or failed to be put back. */
  lemma PutAllBackRestoresIff(d: Disk, jobs: seq<Job>, faults: seq<Fault>, rf: RollbackFaults)
    requires |faults| == |jobs|
    ensures
      var o := Run(d, jobs, faults);
      PutAllBack(o.disk.nodes, o.disk.backups, o.applied, rf) == d.nodes
      <==> o.lost.None? && forall m :: m in o.applied ==> !RollbackFails(m.target, rf)
  {
    hide Run, PutAllBack;
    var o := Run(d, jobs, faults);
    var back := PutAllBack(o.disk.nodes, o.disk.backups, o.applied, rf);
    RunTraces(d, jobs, faults);
    forall t {
      PutAllBackAt(o.disk.nodes, o.disk.backups, o.applied, rf, t);
    }
    forall m | m in o.applied
      ensures Get(back, m.target) == Get(d.nodes, m.target) <==> !RollbackFails(m.target, rf)
    {
      var i :| 0 <= i < |o.applied| && o.applied[i] == m;
      assert Get(back, m.target) == Restored(Get(o.disk.nodes, m.target), o.disk.backups, m, rf);
    }
    if o.lost.Some? {
      assert !MovedTo(o.applied, o.lost.value);
      assert Get(back, o.lost.value) != Get(d.nodes, o.lost.value);
    } else if forall m :: m in o.applied ==> !RollbackFails(m.target, rf) {
      forall t
        ensures Get(back, t) == Get(d.nodes, t)
      {
        if MovedTo(o.applied, t) {
          var m :| m in o.applied && m.target == t;
        }
      }
      SameLookups(back, d.nodes);
    }
  }

  /** On success exactly the selected links are directories holding the staged content, and all of them were links. */
  lemma {:induction false} CompleteMigrationReplacesSelected(d: Disk, jobs: seq<Job>, faults: seq<Fault>, t: Target)
    requires |faults| == |jobs| && Run(d, jobs, faults).complete
    ensures forall i :: 0 <= i < |jobs| && jobs[i].target == t ==>
              jobs[i].source.Some? && Get(Run(d, jobs, faults).disk.nodes, t) == Some(Dir(jobs[i].source.value))
              && t in d.nodes && d.nodes[t].Link?
    ensures (forall i :: 0 <= i < |jobs| ==> jobs[i].target != t) ==>
      Get(Run(d, jobs, faults).disk.nodes, t) == Get(d.nodes, t)
    ensures forall i, j :: 0 <= i < j < |jobs| ==> jobs[i].target != jobs[j].target
    decreases |jobs|
  {
    hide Replace;
    if jobs != [] {
      var d1 := Replace(d, jobs[0], faults[0].prims).0;
      ReplacedLink(d, jobs[0], faults[0].prims);
      CompleteMigrationReplacesSelected(d1, jobs[1..], faults[1..], t);
      CompleteMigrationReplacesSelected(d1, jobs[1..], faults[1..], jobs[0].target);
      assert forall i :: 0 < i < |jobs| ==> jobs[i] == jobs[1..][i - 1];
      assert forall i :: 0 < i < |jobs| ==> jobs[i].target != jobs[0].target;
    }
  }

  // ----- the same in terms of the inputs -------------------------------------------------------------------

  /** A job whose replacement can start: central source and link are there, its backup and temporary path are free. */
  predicate ReadyJob(d: Disk, job: Job) {
    && job.source.Some? && job.target in d.nodes && d.nodes[job.target].Link?
    && job.backup !in d.backups && job.target !in d.temps
  }

  /** Every job can start, and no two share a link or a backup. */
  ghost predicate Ready(d: Disk, jobs: seq<Job>) {
    && (forall i :: 0 <= i < |jobs| ==> ReadyJob(d, jobs[i]))
    && (forall i, j :: 0 <= i < j < |jobs| ==> jobs[i].target != jobs[j].target && jobs[i].backup != jobs[j].backup)
  }

  /** The primitives up to the one that makes the backup. */
  const UP_TO_BACKUP := {ReadLink, CopyTree, MakeBackup}

  predicate Replaces(f: set<Prim>) {
    f * (UP_TO_BACKUP + {Unlink, RenameTemp}) == {}
  }

  /** The link is removed, the copy does not take its place, and the handler does not bring the link back. */
  predicate LosesLink(f: set<Prim>) {
    f * (UP_TO_BACKUP + {Unlink}) == {} && RenameTemp in f && (RemoveTemp in f || Relink in f)
  }

  predicate Continues(fault: Fault) {
    Replaces(fault.prims) && !fault.recordFails
  }

  lemma ReplaceByInputs(d: Disk, job: Job, f: set<Prim>)
    ensures
      var (d1, r) := Replace(d, job, f);
      && (r.Done? <==> ReadyJob(d, job) && Replaces(f))
      && (r == Failed(true) <==> ReadyJob(d, job) && LosesLink(f))
      && (r.Done? ==>
            && r.moved == Moved(job.target, job.backup)
            && d1 == Disk(d.nodes[job.target := Dir(job.source.value)], d.temps,
                  d.backups[job.backup := d.nodes[job.target].raw]))
      && (ReadyJob(d, job) ==>
            Get(d1.backups, job.backup) == if f * UP_TO_BACKUP == {} then Some(d.nodes[job.target].raw) else None)
      && (RemoveTemp !in f ==> d1.temps == d.temps)
      && (forall b :: b != job.backup ==> Get(d1.backups, b) == Get(d.backups, b))
  {
  }

  /** After the first link is replaced, the rest is ready exactly when the whole was. */
  lemma ReadyStep(d: Disk, d1: Disk, jobs: seq<Job>)
    requires jobs != [] && ReadyJob(d, jobs[0])
    requires d1 == Disk(d.nodes[jobs[0].target := Dir(jobs[0].source.value)], d.temps,
                        d.backups[jobs[0].backup := d.nodes[jobs[0].target].raw])
    ensures Ready(d, jobs) <==> Ready(d1, jobs[1..])
  {
    var first, rest := jobs[0], jobs[1..];
    assert forall i :: 0 < i < |jobs| ==> jobs[i] == rest[i - 1];
    assert forall job :: ReadyJob(d1, job) <==>
          ReadyJob(d, job) && job.target != first.target && job.backup != first.backup;
    if Ready(d1, rest) {
      forall i | 0 <= i < |jobs|
        ensures ReadyJob(d, jobs[i])
        ensures i > 0 ==> jobs[i].target != first.target && jobs[i].backup != first.backup
      {
        assert i > 0 ==> ReadyJob(d1, rest[i - 1]);
      }
    }
  }

  /** A migration replaces every link if and only if all jobs are ready and no step on the way fails. */
  lemma {:induction false} RunCompletesIff(d: Disk, jobs: seq<Job>, faults: seq<Fault>)
    requires |faults| == |jobs|
    ensures Run(d, jobs, faults).complete <==> Ready(d, jobs) && forall i :: 0 <= i < |faults| ==> Continues(faults[i])
    decreases |jobs|
  {
    hide Replace, Continues, ReadyJob, Replaces;
    if jobs != [] {
      var (d1, r) := Replace(d, jobs[0], faults[0].prims);
      ReplaceByInputs(d, jobs[0], faults[0].prims);
      ContinuesMeans(faults[0]);
      assert forall i :: 0 < i < |faults| ==> faults[i] == faults[1..][i - 1];
      if r.Done? {
        ReadyStep(d, d1, jobs);
        RunCompletesIff(d1, jobs[1..], faults[1..]);
      }
    }
  }

  lemma ContinuesMeans(fault: Fault)
    ensures Continues(fault) <==> Replaces(fault.prims) && !fault.recordFails
  {
  }

  /** A backup left for a selected link blocks the migration. */
  lemma ExistingBackupBlocks(d: Disk, jobs: seq<Job>, faults: seq<Fault>, i: nat)
    requires |faults| == |jobs| && i < |jobs| && jobs[i].backup in d.backups
    ensures !Run(d, jobs, faults).complete
  {
    hide Run, Continues;
    RunCompletesIff(d, jobs, faults);
    assert !ReadyJob(d, jobs[i]);
  }

  /** Job `i` is reached and can start. */
  ghost predicate Begins(d: Disk, jobs: seq<Job>, faults: seq<Fault>, i: nat)
    requires |faults| == |jobs| && i < |jobs|
  {
    Ready(d, jobs[..i + 1]) && forall j :: 0 <= j < i ==> Continues(faults[j])
  }

  lemma FirstBegins(d: Disk, jobs: seq<Job>, faults: seq<Fault>, i: nat)
    requires |faults| == |jobs| && i < |jobs|
    ensures Begins(d, jobs, faults, i) ==> ReadyJob(d, jobs[0]) && (i > 0 ==> Continues(faults[0]))
    ensures i == 0 ==> (Begins(d, jobs, faults, i) <==> ReadyJob(d, jobs[0]))
  {
    hide ReadyJob, Continues;
    assert jobs[..i + 1][0] == jobs[0];
  }

  lemma LaterBegins(d: Disk, d1: Disk, jobs: seq<Job>, faults: seq<Fault>, i: nat)
    requires |faults| == |jobs| && 0 < i < |jobs| && ReadyJob(d, jobs[0]) && Continues(faults[0])
    requires d1 == Disk(d.nodes[jobs[0].target := Dir(jobs[0].source.value)], d.temps,
                        d.backups[jobs[0].backup := d.nodes[jobs[0].target].raw])
    ensures Begins(d, jobs, faults, i) <==> Begins(d1, jobs[1..], faults[1..], i - 1)
  {
    hide Continues;
    assert jobs[..i + 1][0] == jobs[0] && jobs[..i + 1][1..] == jobs[1..][..i];
    ReadyStep(d, d1, jobs[..i + 1]);
    assert forall j :: 0 < j < |faults| ==> faults[j] == faults[1..][j - 1];
  }

  /** Which jobs a run replaces, and which one it loses, from the disk, the jobs and the failing primitives. */
  lemma {:induction false} RunByInputs(d: Disk, jobs: seq<Job>, faults: seq<Fault>, i: nat)
    requires |faults| == |jobs| && i < |jobs|
    ensures
      var o := Run(d, jobs, faults);
      && |o.applied| <= |jobs|
      && (i < |o.applied| <==> Begins(d, jobs, faults, i) && Replaces(faults[i].prims))
      && (i < |o.applied| ==> o.applied[i] == Moved(jobs[i].target, jobs[i].backup))
      && (Begins(d, jobs, faults, i) && LosesLink(faults[i].prims) ==> o.lost == Some(jobs[i].target))
    decreases |jobs|
  {
    hide Replace, Continues, ReadyJob, Replaces, LosesLink, Begins;
    var (d1, r) := Replace(d, jobs[0], faults[0].prims);
    ReplaceByInputs(d, jobs[0], faults[0].prims);
    ContinuesMeans(faults[0]);
    FirstBegins(d, jobs, faults, i);
    LosingIsNotReplacing(faults[i].prims);
    if r.Done? && !faults[0].recordFails && i > 0 {
      LaterBegins(d, d1, jobs, faults, i);
      RunByInputs(d1, jobs[1..], faults[1..], i - 1);
    } else if r.Done? && !faults[0].recordFails && |jobs| > 1 {
      RunByInputs(d1, jobs[1..], faults[1..], 0);
    }
  }

  lemma LosingIsNotReplacing(f: set<Prim>)
    ensures !(Replaces(f) && LosesLink(f))
  {
  }

  lemma {:induction false} LostByInputs(d: Disk, jobs: seq<Job>, faults: seq<Fault>) returns (i: nat)
    requires |faults| == |jobs| && Run(d, jobs, faults).lost.Some?
    ensures i < |jobs| && Begins(d, jobs, faults, i) && LosesLink(faults[i].prims)
    decreases |jobs|
  {
    hide Replace, Continues, ReadyJob, Replaces, LosesLink, Begins;
    var (d1, r) := Replace(d, jobs[0], faults[0].prims);
    ReplaceByInputs(d, jobs[0], faults[0].prims);
    ContinuesMeans(faults[0]);
    if r.Done? {
      var j := LostByInputs(d1, jobs[1..], faults[1..]);
      i := j + 1;
      LaterBegins(d, d1, jobs, faults, i);
    } else {
      i := 0;
      FirstBegins(d, jobs, faults, 0);
    }
  }

  /**
   Exactly when a migration loses a link: some job is ready and reached, nothing fails up to removing its link, and
   then both the rename and a step of the handler fail.
   */
  lemma LosesALinkIff(d: Disk, jobs: seq<Job>, faults: seq<Fault>)
    requires |faults| == |jobs|
    ensures Run(d, jobs, faults).lost.Some? <==>
              exists i: nat :: i < |jobs| && Begins(d, jobs, faults, i) && LosesLink(faults[i].prims)
  {
    hide Run, Begins, LosesLink;
    if Run(d, jobs, faults).lost.Some? {
      var i := LostByInputs(d, jobs, faults);
    }
    forall i: nat | i < |jobs| && Begins(d, jobs, faults, i) && LosesLink(faults[i].prims)
      ensures Run(d, jobs, faults).lost.Some?
    {
      RunByInputs(d, jobs, faults, i);
    }
  }

  /** A job that is reached ends well: it does not lose its link, and a link it replaces can be put back. */
  predicate EndsWell(job: Job, fault: Fault, rf: RollbackFaults) {
    !LosesLink(fault.prims) && (Replaces(fault.prims) ==> !RollbackFails(job.target, rf))
  }

  /**
   Legacy migration is all or nothing. When it fails, the rollback ends with every consumer link as it was, if and
   only if no job that was reached lost its own link, and no link it replaced fails to be put back.
   */
  lemma FailedMigrationRestoresLinks(d: Disk, jobs: seq<Job>, faults: seq<Fault>, rf: RollbackFaults)
    requires |faults| == |jobs|
    ensures
      var o := Run(d, jobs, faults);
      PutAllBack(o.disk.nodes, o.disk.backups, o.applied, rf) == d.nodes
      <==> forall i: nat :: i < |jobs| && Begins(d, jobs, faults, i) ==> EndsWell(jobs[i], faults[i], rf)
  {
    hide Run, PutAllBack, Begins, LosesLink, Replaces, RollbackFails;
    var o := Run(d, jobs, faults);
    PutAllBackRestoresIff(d, jobs, faults, rf);
    LosesALinkIff(d, jobs, faults);
    forall i: nat | i < |jobs| {
      RunByInputs(d, jobs, faults, i);
    }
    AppliedIsShort(d, jobs, faults);
    forall m | m in o.applied
      ensures exists i: nat ::
                i < |jobs| && Begins(d, jobs, faults, i) && Replaces(faults[i].prims) && jobs[i].target == m.target
    {
      var i: nat :| i < |o.applied| && o.applied[i] == m;
      assert Begins(d, jobs, faults, i) && jobs[i].target == m.target;
    }
    forall i: nat | i < |jobs| && Begins(d, jobs, faults, i) && Replaces(faults[i].prims)
      ensures exists m :: m in o.applied && m.target == jobs[i].target
    {
      assert o.applied[i] in o.applied;
    }
  }

  lemma {:induction false} AppliedIsShort(d: Disk, jobs: seq<Job>, faults: seq<Fault>)
    requires |faults| == |jobs|
    ensures |Run(d, jobs, faults).applied| <= |jobs|
  {
    hide Replace, Begins, Replaces, LosesLink;
    if jobs != [] {
      RunByInputs(d, jobs, faults, 0);
    }
  }

  // ----- trying again ----------------------------------------------------------------------------------------

  /**
   The backups of an attempt stay beside its record. If its first job was ready and nothing failed up to making the
   backup, every later migration of the same selection from the same record directory fails, whatever state the
   links are in by then.
   */
  lemma RetryIsBlocked(d: Disk, jobs: seq<Job>, faults: seq<Fault>, later: Disk, retryFaults: seq<Fault>)
    requires |faults| == |jobs| == |retryFaults| && jobs != []
    requires ReadyJob(d, jobs[0]) && faults[0].prims * UP_TO_BACKUP == {}
    requires forall b :: b in Run(d, jobs, faults).disk.backups ==> b in later.backups
    ensures !Run(later, jobs, retryFaults).complete
  {
    hide Run, Replace, Continues;
    BackupsAfterRun(d, jobs, faults);
    RunCompletesIff(later, jobs, retryFaults);
    assert !ReadyJob(later, jobs[0]);
  }

  lemma {:induction false} RunKeepsBackups(d: Disk, jobs: seq<Job>, faults: seq<Fault>)
    requires |faults| == |jobs|
    ensures forall b :: b in d.backups ==> b in Run(d, jobs, faults).disk.backups
  {
    hide Run;
    RunTraces(d, jobs, faults);
  }

  /** A run leaves no new backup, or at least that of its first job. */
  lemma BackupsAfterRun(d: Disk, jobs: seq<Job>, faults: seq<Fault>)
    requires |faults| == |jobs|
    ensures jobs != [] && ReadyJob(d, jobs[0]) && faults[0].prims * UP_TO_BACKUP == {} ==>
              jobs[0].backup in Run(d, jobs, faults).disk.backups
    ensures jobs == [] || !ReadyJob(d, jobs[0]) || faults[0].prims * UP_TO_BACKUP != {} ==>
              Run(d, jobs, faults).disk.backups == d.backups
  {
    hide ReadyJob;
    if jobs != [] {
      var (d1, r) := Replace(d, jobs[0], faults[0].prims);
      FirstBackup(d, jobs[0], faults[0].prims);
      if r.Done? && !faults[0].recordFails {
        RunKeepsBackups(d1, jobs[1..], faults[1..]);
      }
    }
  }

  lemma FirstBackup(d: Disk, job: Job, f: set<Prim>)
    ensures
      var (d1, r) := Replace(d, job, f);
      && (ReadyJob(d, job) && f * UP_TO_BACKUP == {} ==> job.backup in d1.backups)
      && (!ReadyJob(d, job) || f * UP_TO_BACKUP != {} ==> d1.backups == d.backups && !r.Done?)
  {
    ReplaceByInputs(d, job, f);
  }

  /**
   Exactly when a retry over the restored links completes: the selection is ready, nothing fails this time, and the
   first attempt failed at its first job before that job's backup was made.
   */
  lemma RetryCompletesIff(d: Disk, jobs: seq<Job>, faults: seq<Fault>, retryFaults: seq<Fault>)
    requires |faults| == |jobs| == |retryFaults|
    ensures
      Run(Disk(d.nodes, d.temps, Run(d, jobs, faults).disk.backups), jobs, retryFaults).complete
      <==> && Ready(d, jobs) && (forall i :: 0 <= i < |jobs| ==> Continues(retryFaults[i]))
           && (jobs == [] || faults[0].prims * UP_TO_BACKUP != {})
  {
    hide Run, Continues;
    var again := Disk(d.nodes, d.temps, Run(d, jobs, faults).disk.backups);
    RunCompletesIff(again, jobs, retryFaults);
    RunKeepsBackups(d, jobs, faults);
    BackupsAfterRun(d, jobs, faults);
    assert forall job :: ReadyJob(again, job) ==> ReadyJob(d, job);
    if Ready(again, jobs) {
      assert jobs != [] ==> ReadyJob(again, jobs[0]);
    }
  }

  /** An attempt that replaced nothing and lost nothing can still block its retry: removing the first link failed. */
  lemma HarmlessAttemptBlocksRetry(target: Target, raw: string, backup: BackupPath, source: Tree)
    ensures
      var d := Disk(map[target := Link(raw)], map[], map[]);
      var jobs := [Job(target, backup, Some(source))];
      var o := Run(d, jobs, [Fault({Unlink}, false)]);
      && o.applied == [] && o.lost.None? && o.disk.nodes == d.nodes
      && Run(d, jobs, [Fault({}, false)]).complete
      && !Run(o.disk, jobs, [Fault({}, false)]).complete
  {
    var d := Disk(map[target := Link(raw)], map[], map[]);
    var jobs := [Job(target, backup, Some(source))];
    RunCompletesIff(d, jobs, [Fault({}, false)]);
    RunCompletesIff(Run(d, jobs, [Fault({Unlink}, false)]).disk, jobs, [Fault({}, false)]);
    assert jobs[0].backup in Run(d, jobs, [Fault({Unlink}, false)]).disk.backups;
    assert !ReadyJob(Run(d, jobs, [Fault({Unlink}, false)]).disk, jobs[0]);
  }
}
