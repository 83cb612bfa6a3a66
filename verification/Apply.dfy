/**
 Installing skills into a target root with backups, and rolling a recorded installation back.

 Targets, temporary copies and backups are three separate families of paths; a temporary copy belongs to the
 target it is made for. Every primitive is atomic and may fail.
 */
module Apply {
  import opened Common

  type Target = string
  type BackupPath = string

  datatype Prim = CopySource | CopyBackup | RemoveTarget | RenameTemp | CopyBack | RemoveTemp

  /** A planned install; `source` is `None` when the staged source is not a directory. */
  datatype Item<T> = Item(source: Option<T>, target: Target, backup: BackupPath, allowed: bool)

  /** What the record keeps about an installed item. */
  datatype Applied = Applied(target: Target, backup: BackupPath, hadExisting: bool)

  datatype ApplyError =
    | SourceNotADirectory | TempExists | BackupExists | BackupMissing(backup: BackupPath)
    | PrimFailed(prim: Prim, target: Target)

  datatype Disk<T> = Disk(nodes: map<Target, T>, temps: map<Target, T>, backups: map<BackupPath, T>)

  /** Cleaning up the temporary copy may raise an error of its own, which replaces the first one. */
  function Raised(e: ApplyError, t: Target, f: set<Prim>): ApplyError {
    if RemoveTemp in f then PrimFailed(RemoveTemp, t) else e
  }

  /** One install: either the target holds the source and its old content is backed up, or nothing was replaced. */
  function ApplyTo<T>(d: Disk<T>, item: Item<T>, f: set<Prim>): (Disk<T>, Result<Applied, ApplyError>) {
    var t, had := item.target, item.target in d.nodes;
    if item.source.None? then (d, Err(SourceNotADirectory))
    else if t in d.temps then (d, Err(TempExists))
    else if CopySource in f then (d, Err(PrimFailed(CopySource, t)))
    else
      var staged := d.temps[t := item.source.value];
      var after := if RemoveTemp in f then staged else d.temps;
      var kept := if had then d.backups[item.backup := d.nodes[t]] else d.backups;
      if had && item.backup in d.backups then
        (d.(temps := after), Err(Raised(BackupExists, t, f)))
      else if had && CopyBackup in f then (d.(temps := after), Err(Raised(PrimFailed(CopyBackup, t), t, f)))
      else if had && RemoveTarget in f then (Disk(d.nodes, after, kept), Err(Raised(PrimFailed(RemoveTarget, t), t, f)))
      else if RenameTemp in f then
        if had && CopyBack in f then (Disk(d.nodes - {t}, staged, kept), Err(PrimFailed(CopyBack, t)))
        else (Disk(d.nodes, after, kept), Err(Raised(PrimFailed(RenameTemp, t), t, f)))
      else (Disk(d.nodes[t := item.source.value], d.temps, kept), Ok(Applied(t, item.backup, had)))
  }

  datatype Outcome<T> = Outcome(disk: Disk<T>, applied: seq<Applied>, error: Option<ApplyError>)

  /** A whole plan: disallowed items are skipped and the first failure stops the run; the record is kept. */
  function Run<T>(d: Disk<T>, items: seq<Item<T>>, faults: seq<set<Prim>>): Outcome<T>
    requires |faults| == |items|
    decreases |items|
  {
    if items == [] then Outcome(d, [], None)
    else if !items[0].allowed then Run(d, items[1..], faults[1..])
    else
      match ApplyTo(d, items[0], faults[0])
      case (d1, Err(e)) => Outcome(d1, [], Some(e))
      case (d1, Ok(a)) =>
        var rest := Run(d1, items[1..], faults[1..]);
        rest.(applied := [a] + rest.applied)
  }

  function Undo<T>(nodes: map<Target, T>, backups: map<BackupPath, T>, a: Applied): map<Target, T>
    requires a.hadExisting ==> a.backup in backups
  {
    if a.hadExisting then nodes[a.target := backups[a.backup]] else nodes - {a.target}
  }

  /** Undoing a record, last item first; a missing backup stops it. */
  function Rollback<T>(nodes: map<Target, T>, backups: map<BackupPath, T>, applied: seq<Applied>)
    : (map<Target, T>, Option<ApplyError>)
    decreases |applied|
  {
    if applied == [] then (nodes, None)
    else
      var last := applied[|applied| - 1];
      if last.hadExisting && last.backup !in backups then (nodes, Some(BackupMissing(last.backup)))
      else Rollback(Undo(nodes, backups, last), backups, applied[..|applied| - 1])
  }

  class TargetRoot<T> {
    var nodes: map<Target, T>
    var temps: map<Target, T>
    var backups: map<BackupPath, T>

    constructor (nodes: map<Target, T>)
      ensures Now() == Disk(nodes, map[], map[])
    {
      this.nodes := nodes;
      temps := map[];
      backups := map[];
    }

    function Now(): Disk<T>
      reads this
    {
      Disk(nodes, temps, backups)
    }

    /** A new apply id comes with fresh temporary names and a fresh backup directory. */
    method BeginApply()
      modifies this
      ensures Now() == Disk(old(nodes), map[], map[])
    {
      temps := map[];
      backups := map[];
    }

    method ApplyItem(item: Item<T>, f: set<Prim>) returns (r: Result<Applied, ApplyError>)
      modifies this
      ensures (Now(), r) == ApplyTo(old(Now()), item, f)
    {
      var t := item.target;
      if item.source.None? { return Err(SourceNotADirectory); }
      if t in temps { return Err(TempExists); }
      if CopySource in f { return Err(PrimFailed(CopySource, t)); }
      temps := temps[t := item.source.value];
      ghost var staged := temps;
      var had := t in nodes;
      var problem: Option<ApplyError> := None;
      if had {
        if item.backup in backups {
          problem := Some(BackupExists);
        } else if CopyBackup in f {
          problem := Some(PrimFailed(CopyBackup, t));
        } else {
          backups := backups[item.backup := nodes[t]];
        }
      }
      if problem.None? {
        if had && RemoveTarget in f {
          problem := Some(PrimFailed(RemoveTarget, t));
        } else {
          nodes := nodes - {t};
          if RenameTemp in f {
            problem := Some(PrimFailed(RenameTemp, t));
          } else {
            nodes := nodes[t := temps[t]];
            temps := temps - {t};
            assert temps == old(temps);
            assert nodes == old(nodes)[t := item.source.value];
            return Ok(Applied(t, item.backup, had));
          }
        }
      }
      if had && item.backup in backups && t !in nodes {
        if CopyBack in f { return Err(PrimFailed(CopyBack, t)); }
        nodes := nodes[t := backups[item.backup]];
      }
      assert nodes == old(nodes);
      if RemoveTemp in f { return Err(PrimFailed(RemoveTemp, t)); }
      temps := temps - {t};
      assert temps == old(temps);
      return Err(problem.value);
    }

    method ExecuteApplyPlan(items: seq<Item<T>>, faults: seq<set<Prim>>)
      returns (applied: seq<Applied>, error: Option<ApplyError>)
      requires |faults| == |items|
      modifies this
      ensures Outcome(Now(), applied, error) == Run(old(Now()), items, faults)
    {
      applied := [];
      var i := 0;
      while i < |items|
        invariant 0 <= i <= |items|
        invariant Run(old(Now()), items, faults) == Continued(applied, Run(Now(), items[i..], faults[i..]))
      {
        assert items[i..][0] == items[i] && items[i..][1..] == items[i + 1..];
        assert faults[i..][0] == faults[i] && faults[i..][1..] == faults[i + 1..];
        if items[i].allowed {
          var r := ApplyItem(items[i], faults[i]);
          match r {
            case Err(e) => return applied, Some(e);
            case Ok(a) =>
              ghost var rest := Run(Now(), items[i + 1..], faults[i + 1..]).applied;
              assert applied + ([a] + rest) == (applied + [a]) + rest;
              applied := applied + [a];
          }
        }
        i := i + 1;
      }
      return applied, None;
    }

    method RollbackApplyRecord(applied: seq<Applied>) returns (error: Option<ApplyError>)
      modifies this
      ensures (nodes, error) == Rollback(old(nodes), old(backups), applied)
      ensures temps == old(temps) && backups == old(backups)
    {
      var i := |applied|;
      assert applied[..i] == applied;
      while i > 0
        invariant 0 <= i <= |applied|
        invariant Rollback(old(nodes), old(backups), applied) == Rollback(nodes, backups, applied[..i])
        invariant temps == old(temps) && backups == old(backups)
      {
        i := i - 1;
        var a := applied[i];
        ghost var before := nodes;
        assert applied[..i + 1][i] == a && applied[..i + 1][..i] == applied[..i];
        if a.hadExisting {
          if a.backup !in backups { return Some(BackupMissing(a.backup)); }
          nodes := nodes - {a.target};
          nodes := nodes[a.target := backups[a.backup]];
          assert nodes == Undo(before, backups, a);
        } else {
          nodes := nodes - {a.target};
        }
      }
      return None;
    }
  }

  function Continued<T>(applied: seq<Applied>, rest: Outcome<T>): Outcome<T> {
    rest.(applied := applied + rest.applied)
  }

  // ----- what a complete run installs ---------------------------------------------------------------

  /** The source of the last allowed item for target `t`. */
  function LastSource<T>(items: seq<Item<T>>, t: Target): Option<T> {
    if items == [] then None
    else
      var later := LastSource(items[1..], t);
      if later.Some? then later
      else if items[0].allowed && items[0].target == t then items[0].source else None
  }

  /** A complete run leaves every target with the source of its last allowed item and touches nothing else. */
  lemma {:induction false} CompleteRunInstalls<T>(d: Disk<T>, items: seq<Item<T>>, faults: seq<set<Prim>>, t: Target)
    requires |faults| == |items| && Run(d, items, faults).error.None?
    ensures
      Get(Run(d, items, faults).disk.nodes, t) ==
        if LastSource(items, t).Some? then LastSource(items, t) else Get(d.nodes, t)
    ensures Run(d, items, faults).disk.temps == d.temps
    decreases |items|
  {
    if items != [] {
      CompleteRunInstalls(if items[0].allowed then ApplyTo(d, items[0], faults[0]).0 else d, items[1..],
            faults[1..], t);
    }
  }

  // ----- rollback is exact --------------------------------------------------------------------------

  /** The run stopped at an item whose recovery failed: its target is gone and only its backup remains. */
  predicate LostTarget<T>(o: Outcome<T>, t: Target) {
    o.error == Some(PrimFailed(CopyBack, t))
  }

  predicate AppliedTo(applied: seq<Applied>, t: Target) {
    exists i :: 0 <= i < |applied| && applied[i].target == t
  }

  /** A written backup is never overwritten, and the record names only backups that exist. */
  lemma {:induction false} BackupsAccumulate<T>(d: Disk<T>, items: seq<Item<T>>, faults: seq<set<Prim>>)
    requires |faults| == |items|
    ensures
      var o := Run(d, items, faults);
      && (forall b :: b in d.backups ==> b in o.disk.backups && o.disk.backups[b] == d.backups[b])
      && (forall a :: a in o.applied && a.hadExisting ==> a.backup in o.disk.backups)
    decreases |items|
  {
    if items != [] {
      BackupsAccumulate(if items[0].allowed then ApplyTo(d, items[0], faults[0]).0 else d, items[1..], faults[1..]);
    }
  }

  /** Undoing a record ends with its first item. */
  lemma {:induction false} RollbackFirst<T>(nodes: map<Target, T>, backups: map<BackupPath, T>, first: Applied,
                                            rest: seq<Applied>)
    requires forall a :: a in [first] + rest && a.hadExisting ==> a.backup in backups
    ensures Rollback(nodes, backups, rest).1.None?
    ensures Rollback(nodes, backups, [first] + rest) == (Undo(Rollback(nodes, backups, rest).0, backups, first), None)
    decreases |rest|
  {
    var all := [first] + rest;
    if rest == [] {
      assert all[..0] == [];
    } else {
      var n := |rest| - 1;
      assert all[|all| - 1] == rest[n] && all[..|all| - 1] == [first] + rest[..n];
      assert rest[n] in all;
      RollbackFirst(Undo(nodes, backups, rest[n]), backups, first, rest[..n]);
    }
  }

  /** A failed item replaces nothing, unless its own recovery failed; then exactly its target is gone. */
  lemma FailedItemKeepsNodes<T>(d: Disk<T>, item: Item<T>, f: set<Prim>, t: Target)
    requires ApplyTo(d, item, f).1.Err?
    ensures
      var (d1, r) := ApplyTo(d, item, f);
      && Get(d1.nodes, t) == (if r == Err(PrimFailed(CopyBack, t)) then None else Get(d.nodes, t))
      && (r == Err(PrimFailed(CopyBack, t)) ==> t in d.nodes && Get(d1.backups, item.backup) == Some(d.nodes[t]))
  {
  }

  /** A failed item leaves its temporary copy only when the clean-up failed or was not reached. */
  lemma FailedItemCleansUp<T>(d: Disk<T>, item: Item<T>, f: set<Prim>)
    requires ApplyTo(d, item, f).1.Err?
    ensures
      var (d1, r) := ApplyTo(d, item, f);
      && (RemoveTemp !in f && r.error != PrimFailed(CopyBack, item.target) ==> d1.temps == d.temps)
      && (d1.backups == d.backups ||
            (item.backup !in d.backups && item.target in d.nodes &&
             d1.backups == d.backups[item.backup := d.nodes[item.target]]))
  {
  }

  /** A missing backup stops a rollback: the items after the last one that lacks its backup are undone, no other is. */
  lemma {:induction false} RollbackStopsAtMissingBackup<T>(nodes: map<Target, T>, backups: map<BackupPath, T>,
                                                           applied: seq<Applied>, i: nat)
    requires i < |applied| && applied[i].hadExisting && applied[i].backup !in backups
    requires forall j :: i < j < |applied| && applied[j].hadExisting ==> applied[j].backup in backups
    ensures Rollback(nodes, backups, applied[i + 1..]).1.None?
    ensures Rollback(nodes, backups, applied) ==
              (Rollback(nodes, backups, applied[i + 1..]).0, Some(BackupMissing(applied[i].backup)))
    decreases |applied|
  {
    var n := |applied| - 1;
    if i < n {
      assert applied[..n][i + 1..] == applied[i + 1..][..n - i - 1];
      RollbackStopsAtMissingBackup(Undo(nodes, backups, applied[n]), backups, applied[..n], i);
    }
  }

  /** What a rollback leaves: everything as before, except a lost target that no earlier item installed. */
  lemma {:induction false} RolledBackNodes<T>(d: Disk<T>, items: seq<Item<T>>, faults: seq<set<Prim>>)
    requires |faults| == |items|
    ensures
      var o := Run(d, items, faults);
      var (nodes, error) := Rollback(o.disk.nodes, o.disk.backups, o.applied);
      && error.None?
      && forall t :: Get(nodes, t) == if LostTarget(o, t) && !AppliedTo(o.applied, t) then None else Get(d.nodes, t)
    ensures forall t :: LostTarget(Run(d, items, faults), t) && !AppliedTo(Run(d, items, faults).applied, t) ==>
      t in d.nodes
    decreases |items|
  {
    if items != [] {
      if !items[0].allowed {
        RolledBackNodes(d, items[1..], faults[1..]);
      } else if ApplyTo(d, items[0], faults[0]).1.Ok? {
        var (d1, r) := ApplyTo(d, items[0], faults[0]);
        var o, rest := Run(d, items, faults), Run(d1, items[1..], faults[1..]);
        RolledBackNodes(d1, items[1..], faults[1..]);
        BackupsAccumulate(d1, items[1..], faults[1..]);
        RollbackFirst(o.disk.nodes, o.disk.backups, r.value, rest.applied);
        var after := Rollback(rest.disk.nodes, rest.disk.backups, rest.applied).0;
        assert o.applied == [r.value] + rest.applied;
        forall t
          ensures Get(Undo(after, o.disk.backups, r.value), t) ==
                    if LostTarget(o, t) && !AppliedTo(o.applied, t) then None else Get(d.nodes, t)
          ensures LostTarget(o, t) && !AppliedTo(o.applied, t) ==> t in d.nodes
        {
          AppliedToMore(r.value, rest.applied, t);
          assert LostTarget(o, t) <==> LostTarget(rest, t);
          if t == r.value.target {
            assert r.value.hadExisting ==> d1.backups[r.value.backup] == d.nodes[t];
          } else {
            assert Get(d1.nodes, t) == Get(d.nodes, t);
            assert Get(Undo(after, o.disk.backups, r.value), t) == Get(after, t);
          }
        }
      } else {
        forall t {
          FailedItemKeepsNodes(d, items[0], faults[0], t);
        }
      }
    }
  }

  lemma AppliedToMore(first: Applied, rest: seq<Applied>, t: Target)
    ensures AppliedTo([first] + rest, t) <==> t == first.target || AppliedTo(rest, t)
  {
    var all := [first] + rest;
    assert all[0] == first;
    if AppliedTo(rest, t) {
      var i :| 0 <= i < |rest| && rest[i].target == t;
      assert all[i + 1].target == t;
    }
    if AppliedTo(all, t) && t != first.target {
      var i :| 0 <= i < |all| && all[i].target == t;
      assert rest[i - 1].target == t;
    }
  }

  // ----- the same in terms of the inputs ------------------------------------------------------------

  /** Nothing fails up to and including the removal of the old target. */
  predicate Clears<T>(d: Disk<T>, item: Item<T>, f: set<Prim>) {
    && item.source.Some? && item.target !in d.temps && CopySource !in f
    && (item.target in d.nodes ==> item.backup !in d.backups && CopyBackup !in f && RemoveTarget !in f)
  }

  predicate Installs<T>(d: Disk<T>, item: Item<T>, f: set<Prim>) {
    Clears(d, item, f) && RenameTemp !in f
  }

  /** An existing target was removed, the rename failed, and the step meant to copy the backup back failed too. */
  predicate DoubleFault<T>(d: Disk<T>, item: Item<T>, f: set<Prim>) {
    Clears(d, item, f) && item.target in d.nodes && RenameTemp in f && CopyBack in f
  }

  /** The disk after an item was installed. */
  function Installed<T>(d: Disk<T>, item: Item<T>): Disk<T> {
    if !item.allowed || item.source.None? then d
    else
      Disk(d.nodes[item.target := item.source.value], d.temps,
           if item.target in d.nodes then d.backups[item.backup := d.nodes[item.target]] else d.backups)
  }

  /** The disk that item `i` of a plan finds when it is reached. */
  function Before<T>(d: Disk<T>, items: seq<Item<T>>, i: nat): Disk<T>
    requires i <= |items|
    decreases i
  {
    if i == 0 then d else Before(Installed(d, items[0]), items[1..], i - 1)
  }

  /** Item `i` is reached: every allowed item before it installs. */
  predicate Reaches<T>(d: Disk<T>, items: seq<Item<T>>, faults: seq<set<Prim>>, i: nat)
    requires |faults| == |items| && i <= |items|
    decreases i
  {
    i == 0 || ((items[0].allowed ==> Installs(d, items[0], faults[0]))
               && Reaches(Installed(d, items[0]), items[1..], faults[1..], i - 1))
  }

  /** Item `i` loses its target. */
  predicate LosesTarget<T>(d: Disk<T>, items: seq<Item<T>>, faults: seq<set<Prim>>, i: nat)
    requires |faults| == |items| && i < |items|
  {
    Reaches(d, items, faults, i) && items[i].allowed && DoubleFault(Before(d, items, i), items[i], faults[i])
  }

  /** An earlier item installs to the target of item `i`. */
  predicate SharesTarget<T>(items: seq<Item<T>>, i: nat)
    requires i < |items|
  {
    exists j :: 0 <= j < i && items[j].allowed && items[j].target == items[i].target
  }

  lemma ApplyByInputs<T>(d: Disk<T>, item: Item<T>, f: set<Prim>)
    ensures
      var (d1, r) := ApplyTo(d, item, f);
      && (r.Ok? <==> Installs(d, item, f))
      && (forall t :: r == Err(PrimFailed(CopyBack, t)) <==> DoubleFault(d, item, f) && t == item.target)
      && (r.Ok? ==> r.value.target == item.target && (item.allowed ==> d1 == Installed(d, item)))
  {
  }

  /** A plan is carried out completely if and only if every allowed item installs on what the earlier ones leave. */
  lemma {:induction false} RunCompletesIff<T>(d: Disk<T>, items: seq<Item<T>>, faults: seq<set<Prim>>)
    requires |faults| == |items|
    ensures Run(d, items, faults).error.None? <==> Reaches(d, items, faults, |items|)
    decreases |items|
  {
    hide ApplyTo, Installs;
    if items != [] {
      ApplyByInputs(d, items[0], faults[0]);
      RunCompletesIff(Installed(d, items[0]), items[1..], faults[1..]);
    }
  }

  /** A run that reaches an item losing its target stops there, with every earlier allowed item applied. */
  lemma {:induction false} LosingRun<T>(d: Disk<T>, items: seq<Item<T>>, faults: seq<set<Prim>>, i: nat)
    requires |faults| == |items| && i < |items| && LosesTarget(d, items, faults, i)
    ensures LostTarget(Run(d, items, faults), items[i].target)
    ensures AppliedTo(Run(d, items, faults).applied, items[i].target) <==> SharesTarget(items, i)
    decreases |items|
  {
    hide ApplyTo, DoubleFault, Installs;
    var t, o := items[i].target, Run(d, items, faults);
    if i == 0 {
      ApplyByInputs(d, items[0], faults[0]);
    } else {
      var d1 := Installed(d, items[0]);
      LosingRun(d1, items[1..], faults[1..], i - 1);
      SharesTargetStep(items, i);
      if items[0].allowed {
        ApplyByInputs(d, items[0], faults[0]);
        var r := ApplyTo(d, items[0], faults[0]).1;
        AppliedToMore(r.value, Run(d1, items[1..], faults[1..]).applied, t);
      } else {
        assert d1 == d;
      }
    }
  }

  lemma SharesTargetStep<T>(items: seq<Item<T>>, i: nat)
    requires 0 < i < |items|
    ensures SharesTarget(items, i) <==>
              (items[0].allowed && items[0].target == items[i].target) || SharesTarget(items[1..], i - 1)
  {
    assert forall j :: 0 < j < |items| ==> items[j] == items[1..][j - 1];
    if SharesTarget(items[1..], i - 1) {
      var j :| 0 <= j < i - 1 && items[1..][j].allowed && items[1..][j].target == items[1..][i - 1].target;
      assert items[j + 1].allowed;
    }
  }

  lemma {:induction false} LostByInputs<T>(d: Disk<T>, items: seq<Item<T>>, faults: seq<set<Prim>>, t: Target)
    returns (i: nat)
    requires |faults| == |items| && LostTarget(Run(d, items, faults), t)
    ensures i < |items| && LosesTarget(d, items, faults, i) && items[i].target == t
    decreases |items|
  {
    hide ApplyTo, DoubleFault, Installs;
    ApplyByInputs(d, items[0], faults[0]);
    if items[0].allowed && ApplyTo(d, items[0], faults[0]).1.Err? {
      i := 0;
    } else {
      var j := LostByInputs(Installed(d, items[0]), items[1..], faults[1..], t);
      i := j + 1;
    }
  }

  /** Exactly when a run loses a target: some reached item for it meets a double fault. */
  lemma LosesTargetIff<T>(d: Disk<T>, items: seq<Item<T>>, faults: seq<set<Prim>>, t: Target)
    requires |faults| == |items|
    ensures LostTarget(Run(d, items, faults), t) <==>
              exists i: nat :: i < |items| && LosesTarget(d, items, faults, i) && items[i].target == t
  {
    hide Run, LosesTarget, LostTarget;
    if LostTarget(Run(d, items, faults), t) {
      var i := LostByInputs(d, items, faults, t);
    }
    forall i: nat | i < |items| && LosesTarget(d, items, faults, i) && items[i].target == t
      ensures LostTarget(Run(d, items, faults), t)
    {
      LosingRun(d, items, faults, i);
    }
  }

  /**
   Apply rollback is exact: for every plan, also with several items for one target or one backup path, and every
   set of failing primitives, rolling back the record that was written restores the target root, if and only if
   no item that is reached meets a double fault, unless an earlier item installs to the same target.
   */
  lemma RollbackIsExact<T>(d: Disk<T>, items: seq<Item<T>>, faults: seq<set<Prim>>)
    requires |faults| == |items|
    ensures
      var o := Run(d, items, faults);
      && Rollback(o.disk.nodes, o.disk.backups, o.applied).1.None?
      && (Rollback(o.disk.nodes, o.disk.backups, o.applied).0 == d.nodes
          <==> forall i: nat :: i < |items| && LosesTarget(d, items, faults, i) ==> SharesTarget(items, i))
  {
    hide Run, Rollback, AppliedTo, LosesTarget, SharesTarget, LostTarget;
    var o := Run(d, items, faults);
    var nodes := Rollback(o.disk.nodes, o.disk.backups, o.applied).0;
    RolledBackNodes(d, items, faults);
    if forall i: nat :: i < |items| && LosesTarget(d, items, faults, i) ==> SharesTarget(items, i) {
      forall t
        ensures LostTarget(o, t) ==> AppliedTo(o.applied, t)
      {
        if LostTarget(o, t) {
          var i := LostByInputs(d, items, faults, t);
          LosingRun(d, items, faults, i);
        }
      }
      SameLookups(nodes, d.nodes);
    } else {
      var i: nat :| i < |items| && LosesTarget(d, items, faults, i) && !SharesTarget(items, i);
      LosingRun(d, items, faults, i);
      assert Get(nodes, items[i].target) != Get(d.nodes, items[i].target);
    }
  }
}
