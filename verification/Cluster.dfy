/**
 Any number of devices sharing one remote. Edits, downloads and cycles interleave freely; a cycle may be cut
 short after any of its effects. Only the remote check and the upload that follows it happen together.
 */
module Cluster {
  import opened Common
  import opened SyncState
  import opened SyncPlan
  import opened Remote
  import opened SyncCycle

  type DeviceId = string

  /**
   One device: local root, base record, downloaded index and settings. `held` remembers every (skill, content)
   its local root ever contained, `seen` every one in an index it read or wrote.
   */
  datatype Device = Device(local: Skills, base: Skills, cache: Index, cfg: Config,
                           held: set<(SkillId, Content)>, seen: set<(SkillId, Content)>)

  /** `past`: every index the remote ever stored. */
  datatype Cluster = Cluster(devices: map<DeviceId, Device>, files: Files, past: set<Index>)

  datatype Step =
    | Edit(device: DeviceId, id: SkillId, content: Option<Content>)
    | Download(device: DeviceId)
    | Cycle(device: DeviceId, tr: Trace, k: nat)
    | Approve(device: DeviceId, ids: seq<SkillId>, k: nat)

  function Pairs(skills: Skills): set<(SkillId, Content)> {
    set id | id in skills :: (id, skills[id])
  }

  function MachineOf(d: Device, files: Files): Machine {
    Machine(d.local, d.base, files)
  }

  /** The remote still holds the hashes the device cached. */
  predicate RemoteMatchesCache(d: Device, files: Files) {
    Hashes(IndexOf(files)) == Hashes(d.cache)
  }

  function Deprecating(index: Index, id: SkillId): Index {
    if id in index then index[id := index[id].(deprecated := true)] else index
  }

  /** The remote check compares hashes only, so it does not see a skill that was deprecated since the download. */
  lemma ConcurrentDeprecationGoesUnnoticed(d: Device, files: Files, id: SkillId)
    ensures RemoteMatchesCache(d, files[IndexPath := IndexBlob(Deprecating(IndexOf(files), id))])
            <==> RemoteMatchesCache(d, files)
  {
    var index := IndexOf(files);
    assert IndexOf(files[IndexPath := IndexBlob(Deprecating(index, id))]) == Deprecating(index, id);
    assert Hashes(Deprecating(index, id)) == Hashes(index);
  }

  /** An approved push changes the cached index at the approved ids only. */
  function ApprovedIndex(d: Device, ids: seq<SkillId>): Index {
    d.cache + map id | id in ids && id in d.local :: Entry(d.local[id], SHARED_SOURCE, false)
  }

  ghost predicate Enabled(c: Cluster, s: Step) {
    && s.device in c.devices
    && var d := c.devices[s.device];
       match s
       case Edit(_, _, _) => true
       case Download(_) => IndexPath in c.files
       case Cycle(_, tr, _) =>
         && Executable(d.cfg, MachineOf(d, c.files), d.cache)
         && ValidTrace(d.cfg, MachineOf(d, c.files), d.cache, tr)
         && (tr.puts != [] ==> RemoteMatchesCache(d, c.files))
       case Approve(_, ids, _) =>
         && RemoteMatchesCache(d, c.files)
         && forall id :: id in ids ==> id in d.local
  }

  function Next(c: Cluster, s: Step): Cluster
    requires s.device in c.devices
  {
    var d := c.devices[s.device];
    match s
    case Edit(_, id, content) =>
      var local := Put(d.local, id, content);
      c.(devices := c.devices[s.device := d.(local := local, held := d.held + Pairs(local))])
    case Download(_) =>
      var index := IndexOf(c.files);
      c.(devices := c.devices[s.device := d.(cache := index, seen := d.seen + Pairs(Hashes(index)))])
    case Cycle(_, tr, k) =>
      var m := CrashAt(MachineOf(d, c.files), d.cache, tr, k);
      var written := if IndexWritten(tr, k) then {IndexOf(m.files)} else {};
      var seen := if IndexWritten(tr, k) then d.seen + Pairs(Hashes(IndexOf(m.files))) else d.seen;
      Cluster(
        c.devices[s.device := d.(local := m.local, base := m.base, held := d.held + Pairs(m.local), seen := seen)],
        m.files, c.past + written)
    case Approve(_, ids, k) =>
      var index := ApprovedIndex(d, ids);
      var stored := c.files + PublishedArchives(d.local, Take(ids, k));
      if k <= |ids| then c.(files := stored)
      else
        Cluster(
          c.devices[s.device := d.(base := Hashes(index), seen := d.seen + Pairs(Hashes(index)))],
          stored[IndexPath := IndexBlob(index)], c.past + {index})
  }

  /** Right after a download the device's push check passes; nothing else of the cluster has changed. */
  lemma DownloadPassesPushCheck(c: Cluster, s: Step)
    requires Enabled(c, s) && s.Download?
    ensures
      var after := Next(c, s);
      && RemoteMatchesCache(after.devices[s.device], after.files)
      && after.files == c.files && after.past == c.past
      && after.devices[s.device].local == c.devices[s.device].local
      && after.devices[s.device].base == c.devices[s.device].base
      && forall x :: x in c.devices && x != s.device ==> after.devices[x] == c.devices[x]
  {
  }

  ghost predicate ValidRun(c: Cluster, steps: seq<Step>)
    decreases |steps|, 0
  {
    steps == [] || (ValidRun(c, steps[..|steps| - 1]) && Enabled(After(c, steps[..|steps| - 1]), steps[|steps| - 1]))
  }

  ghost function After(c: Cluster, steps: seq<Step>): Cluster
    requires ValidRun(c, steps)
    decreases |steps|, 1
  {
    if steps == [] then c else Next(After(c, steps[..|steps| - 1]), steps[|steps| - 1])
  }

  /** The remote content of a skill. */
  function RemoteContent(c: Cluster, id: SkillId): Option<Content> {
    ContentOf(Get(IndexOf(c.files), id))
  }

  // ----- no lost update ------------------------------------------------------------------------------

  /** A no-op whose two sides differ: local-only, acknowledged as an override, or deprecated. */
  predicate SkewedIn(cfg: Config, m: Machine, idx: Index, id: SkillId) {
    ActionOf(cfg, m, idx, id) == Noop && Get(m.local, id) != ContentOf(Get(idx, id))
  }

  /** Every base entry was once held locally and seen remotely. */
  ghost predicate Traced(d: Device) {
    && (forall id :: id in d.base ==> (id, d.base[id]) in d.held && (id, d.base[id]) in d.seen)
    && (forall id :: id in d.cache ==> (id, d.cache[id].content) in d.seen)
    && (forall id :: id in d.local ==> (id, d.local[id]) in d.held)
  }

  /** Devices start with empty base records and caches. */
  ghost predicate Initial(c: Cluster) {
    forall n :: n in c.devices ==>
      var d := c.devices[n];
      d.base == map[] && d.cache == map[] && forall id :: id in d.local ==> (id, d.local[id]) in d.held
  }

  /** One skill through a (possibly cut short) cycle. */
  lemma CycleSides(d: Device, files: Files, tr: Trace, k: nat, id: SkillId)
    requires Executable(d.cfg, MachineOf(d, files), d.cache)
    requires ValidTrace(d.cfg, MachineOf(d, files), d.cache, tr)
    requires tr.puts != [] ==> RemoteMatchesCache(d, files)
    ensures
      var m := CrashAt(MachineOf(d, files), d.cache, tr, k);
      var before, after := ContentOf(Get(IndexOf(files), id)), ContentOf(Get(IndexOf(m.files), id));
      && (after != before && !SkewedIn(d.cfg, MachineOf(d, files), d.cache, id) ==>
            IndexWritten(tr, k) && before == Get(d.base, id) && after == Get(d.local, id) && after == Get(m.local, id))
      && Get(m.local, id) in {Get(d.local, id), ContentOf(Get(d.cache, id))}
      && (Get(m.base, id) == Get(d.base, id) || Get(m.base, id).None?
          || (Get(m.base, id) == Get(m.local, id)
              && (Get(m.base, id) == ContentOf(Get(d.cache, id)) || (IndexWritten(tr, k) && Get(m.base, id) == after))))
      && (IndexWritten(tr, k) ==> after == Get(m.local, id))
  {
    hide PlanAt, CrashAt, Installable;
    var m := MachineOf(d, files);
    CrashSides(d.cfg, m, d.cache, tr, k, id);
    PullAndPushIds(d.cfg, m, d.cache);
    assert MayRun(d.cfg, m, d.cache, id);
    PlannedSides(d.cfg, m, d.cache, id);
    assert BaseWritten(tr, k) ==> Take(tr.installs, k) == tr.installs && (tr.puts != [] ==> IndexWritten(tr, k));
    assert IndexWritten(tr, k) ==> Take(tr.installs, k) == tr.installs;
    if IndexWritten(tr, k) {
      assert Get(Hashes(IndexOf(files)), id) == Get(Hashes(d.cache), id);
    }
  }

  lemma PlannedSides(cfg: Config, m: Machine, idx: Index, id: SkillId)
    requires MayRun(cfg, m, idx, id)
    ensures
      var item := PlanAt(cfg, m.base, m.local, idx, id);
      && item.action in {Noop, PullSkill, PullNew, PushSkill, PushNew}
      && (IsPush(item.action) ==> ContentOf(Get(idx, id)) == Get(m.base, id))
  {
    PlannedActionMeans(cfg, id, Get(m.base, id), Get(m.local, id), Get(idx, id));
  }

  lemma PairsMeans(skills: Skills, id: SkillId)
    ensures id in skills ==> (id, skills[id]) in Pairs(skills)
  {
  }

  /** The acting device after a cycle still traces its base, cache and local root. */
  lemma CycleKeepsTraced(c: Cluster, s: Step)
    requires Enabled(c, s) && s.Cycle? && Traced(c.devices[s.device])
    ensures Traced(Next(c, s).devices[s.device])
  {
    hide CrashAt, Executable, ValidTrace, IndexWritten, Pairs;
    var d, d' := c.devices[s.device], Next(c, s).devices[s.device];
    var m := CrashAt(MachineOf(d, c.files), d.cache, s.tr, s.k);
    forall id
      ensures id in d'.base ==> (id, d'.base[id]) in d'.held && (id, d'.base[id]) in d'.seen
      ensures id in d'.local ==> (id, d'.local[id]) in d'.held
    {
      CycleSides(d, c.files, s.tr, s.k, id);
      PairsMeans(m.local, id);
      PairsMeans(Hashes(IndexOf(m.files)), id);
    }
  }

  /** Every step keeps a device's trace, except its own approved pushes. */
  lemma StepKeepsTraced(c: Cluster, s: Step, n: DeviceId)
    requires n in c.devices && Traced(c.devices[n]) && Enabled(c, s)
    requires s.Approve? ==> s.device != n
    ensures n in Next(c, s).devices && Traced(Next(c, s).devices[n])
  {
    hide CrashAt, Executable, ValidTrace, IndexWritten;
    var d := c.devices[s.device];
    if s.device == n {
      match s
      case Edit(_, id, content) =>
        var local := Put(d.local, id, content);
        forall x ensures x in local ==> (x, local[x]) in Pairs(local) { PairsMeans(local, x); }
      case Download(_) =>
        var skills := Hashes(IndexOf(c.files));
        forall x
          ensures x in IndexOf(c.files) ==> (x, IndexOf(c.files)[x].content) in Pairs(skills)
        {
          PairsMeans(skills, x);
        }
      case Cycle(_, tr, k) =>
        CycleKeepsTraced(c, s);
    }
  }

  /** The device's own steps include no approved push. */
  ghost predicate NeverApproves(steps: seq<Step>, n: DeviceId) {
    forall i :: 0 <= i < |steps| && steps[i].Approve? ==> steps[i].device != n
  }

  lemma {:induction false} RunKeepsTraced(c: Cluster, steps: seq<Step>, n: DeviceId)
    requires Initial(c) && ValidRun(c, steps) && n in c.devices && NeverApproves(steps, n)
    ensures n in After(c, steps).devices && Traced(After(c, steps).devices[n])
    decreases |steps|
  {
    if steps != [] {
      RunKeepsTraced(c, steps[..|steps| - 1], n);
      StepKeepsTraced(After(c, steps[..|steps| - 1]), steps[|steps| - 1], n);
    }
  }

  lemma {:induction false} DevicesStay(c: Cluster, steps: seq<Step>)
    requires ValidRun(c, steps)
    ensures After(c, steps).devices.Keys == c.devices.Keys
    decreases |steps|
  {
    if steps != [] {
      DevicesStay(c, steps[..|steps| - 1]);
      StepKeepsDevices(After(c, steps[..|steps| - 1]), steps[|steps| - 1]);
    }
  }

  lemma StepKeepsDevices(c: Cluster, s: Step)
    requires s.device in c.devices
    ensures Next(c, s).devices.Keys == c.devices.Keys
  {
  }

  /**
   No lost update: in every run from empty base records, whenever a cycle changes the remote content of a skill that
   is not skewed for the acting device, the replaced content is that device's own base entry. If the device made no
   approved push before, the entry was once held by its local root and seen in an index it read or wrote. The new
   content is the device's local content. So nobody replaces a remote version it has not incorporated.
   */
  lemma NoLostUpdate(c: Cluster, steps: seq<Step>, s: Step, id: SkillId)
    requires Initial(c) && ValidRun(c, steps)
    requires NeverApproves(steps, s.device)
    requires Enabled(After(c, steps), s) && !s.Approve?
    requires RemoteContent(Next(After(c, steps), s), id) != RemoteContent(After(c, steps), id)
    ensures
      var before := After(c, steps);
      var d := before.devices[s.device];
      var replaced := RemoteContent(before, id);
      && s.Cycle?
      && (replaced == Get(d.base, id) || SkewedIn(d.cfg, MachineOf(d, before.files), d.cache, id))
      && (replaced == Get(d.base, id) && replaced.Some? ==>
            (id, replaced.value) in d.held && (id, replaced.value) in d.seen)
      && RemoteContent(Next(before, s), id) in {Get(d.local, id), ContentOf(Get(d.cache, id))}
      && (!SkewedIn(d.cfg, MachineOf(d, before.files), d.cache, id) ==>
            RemoteContent(Next(before, s), id) == Get(d.local, id))
  {
    DevicesStay(c, steps);
    RunKeepsTraced(c, steps, s.device);
    var before := After(c, steps);
    if s.Cycle? {
      CycleSides(before.devices[s.device], before.files, s.tr, s.k, id);
    }
  }

  // A device with one skill of its own and an empty remote.
  const ITS_SKILL := Content("1", GlobalScope, {})
  const EMPTY_REMOTE: Files := map[IndexPath := IndexBlob(map[])]
  const FIRST_DEVICE := Device(map["a" := ITS_SKILL], map[], map[],
        Config(true, false, PushPull, map[], CcSwitchGlobal),
                               {("a", ITS_SKILL)}, {})
  const FIRST_CLUSTER := Cluster(map["mac" := FIRST_DEVICE], EMPTY_REMOTE, {map[]})
  const FIRST_PUSH := Cycle("mac", Trace([], ["a"]), 3)

  lemma FirstPlanOf(id: SkillId)
    ensures
      var d := FIRST_DEVICE;
      var m := MachineOf(d, EMPTY_REMOTE);
      && MayRun(d.cfg, m, d.cache, id)
      && (ToPush(d.cfg, m, d.cache, id) <==> id == "a")
      && !ToPull(d.cfg, m, d.cache, id)
  {
    var d := FIRST_DEVICE;
    var m := MachineOf(d, EMPTY_REMOTE);
    if id == "a" {
      assert PlanAt(d.cfg, m.base, m.local, d.cache, id).action == PushNew;
    } else {
      UnknownIdIsNoop(d.cfg, m, d.cache, id);
    }
  }

  /** The theorem is about something: a first push is such a run, and it changes the remote. */
  lemma FirstPushChangesRemote()
    ensures Initial(FIRST_CLUSTER) && ValidRun(FIRST_CLUSTER, []) && Enabled(After(FIRST_CLUSTER, []), FIRST_PUSH)
    ensures RemoteContent(FIRST_CLUSTER, "a") == None
    ensures RemoteContent(Next(FIRST_CLUSTER, FIRST_PUSH), "a") == Some(ITS_SKILL)
  {
    hide PlanAt, MayRun, ToPush, ToPull, CrashAt;
    var d := FIRST_DEVICE;
    var m := MachineOf(d, EMPTY_REMOTE);
    forall id {
      FirstPlanOf(id);
    }
    PullAndPushIds(d.cfg, m, d.cache);
    CrashSides(d.cfg, m, d.cache, FIRST_PUSH.tr, FIRST_PUSH.k, "a");
  }

  // ----- index integrity -------------------------------------------------------------------------------

  /** Every index ever stored is closed, and devices only cache stored indexes. */
  ghost predicate Intact(c: Cluster) {
    && (forall x :: x in c.past ==> Closed(x, c.files))
    && (IndexPath in c.files ==> c.files[IndexPath].IndexBlob? && IndexOf(c.files) in c.past)
    && (forall n :: n in c.devices ==> c.devices[n].cache in c.past || c.devices[n].cache == map[])
  }

  /** Every index ever stored names its archives under the shared source name. */
  ghost predicate SharedNaming(c: Cluster) {
    && (forall x: Index, id: SkillId :: x in c.past && id in x ==> x[id].source == SHARED_SOURCE)
    && (forall n: DeviceId, id: SkillId :: n in c.devices && id in c.devices[n].cache ==>
      c.devices[n].cache[id].source == SHARED_SOURCE)
  }

  /** A cycle that pushes plans no local-only, overridden or deprecated skill whose sides differ. */
  ghost predicate PushesUnskewed(c: Cluster, s: Step) {
    s.Cycle? && s.device in c.devices && s.tr.puts != [] ==>
      var d := c.devices[s.device];
      forall id :: !SkewedIn(d.cfg, MachineOf(d, c.files), d.cache, id)
  }

  lemma ArchivesOnlyAccumulate(m: Machine, idx: Index, tr: Trace, k: nat)
    ensures forall p :: p in m.files ==> p in CrashAt(m, idx, tr, k).files
  {
  }

  lemma UnpushedMatchesCache(d: Device, files: Files, tr: Trace, k: nat, id: SkillId)
    requires Executable(d.cfg, MachineOf(d, files), d.cache)
    requires ValidTrace(d.cfg, MachineOf(d, files), d.cache, tr)
    requires !SkewedIn(d.cfg, MachineOf(d, files), d.cache, id)
    requires IndexWritten(tr, k) && id !in tr.puts
    ensures Get(CrashAt(MachineOf(d, files), d.cache, tr, k).local, id) == ContentOf(Get(d.cache, id))
  {
    hide PlanAt, CrashAt, Installable;
    var m := MachineOf(d, files);
    CrashSides(d.cfg, m, d.cache, tr, k, id);
    PullAndPushIds(d.cfg, m, d.cache);
    assert MayRun(d.cfg, m, d.cache, id);
    PlannedSides(d.cfg, m, d.cache, id);
    assert Take(tr.installs, k) == tr.installs;
  }

  /** Where the archive a published entry names can come from. */
  lemma PublishedArchiveSource(d: Device, files: Files, tr: Trace, k: nat, id: SkillId)
    requires IndexWritten(tr, k)
    ensures
      var m := CrashAt(MachineOf(d, files), d.cache, tr, k);
      && m.local == Install(d.local, d.cache, tr.installs)
      && (id in m.local ==>
            (ArchivePath(SHARED_SOURCE, id, m.local[id]) in m.files
             <==> id in tr.puts || ArchivePath(SHARED_SOURCE, id, m.local[id]) in files))
  {
    var m := MachineOf(d, files);
    var c := CrashAt(m, d.cache, tr, k);
    assert Take(tr.installs, k) == tr.installs && Take(tr.puts, k - |tr.installs|) == tr.puts;
    if id in c.local {
      PublishedArchiveAt(c.local, tr.puts, id, c.local[id]);
    }
  }

  lemma PublishedArchiveAt(local: Skills, puts: seq<SkillId>, id: SkillId, content: Content)
    requires id in local && local[id] == content
    ensures ArchivePath(SHARED_SOURCE, id, content) in PublishedArchives(local, puts) <==> id in puts
  {
    var p := ArchivePath(SHARED_SOURCE, id, content);
    if p in PublishedArchives(local, puts) {
      var x :| x in puts && x in local && ArchivePath(SHARED_SOURCE, x, local[x]) == p;
      assert x == id;
    }
  }

  /** Every skill of `local` that is not uploaded has its archive under the shared source name already. */
  ghost predicate Archived(local: Skills, puts: seq<SkillId>, files: Files) {
    forall id :: id in local && id !in puts ==> ArchivePath(SHARED_SOURCE, id, local[id]) in files
  }

  /**
   Exactly when a cycle's index put keeps integrity: if and only if every skill of the local root that it does not
   upload has its archive under the shared source name already.
   */
  lemma PushKeepsIntactIff(c: Cluster, s: Step)
    requires Intact(c) && Enabled(c, s) && s.Cycle? && IndexWritten(s.tr, s.k)
    ensures
      var d := c.devices[s.device];
      Intact(Next(c, s)) <==> Archived(Install(d.local, d.cache, s.tr.installs), s.tr.puts, c.files)
  {
    hide CrashAt, Executable, ValidTrace, Install;
    var d := c.devices[s.device];
    var m := CrashAt(MachineOf(d, c.files), d.cache, s.tr, s.k);
    ArchivesOnlyAccumulate(MachineOf(d, c.files), d.cache, s.tr, s.k);
    CrashedIndex(MachineOf(d, c.files), d.cache, s.tr, s.k);
    CrashedIndexBlob(MachineOf(d, c.files), d.cache, s.tr, s.k);
    forall id
      ensures m.local == Install(d.local, d.cache, s.tr.installs)
      ensures id in m.local ==>
                (ArchivePath(SHARED_SOURCE, id, m.local[id]) in m.files
                 <==> id in s.tr.puts || ArchivePath(SHARED_SOURCE, id, m.local[id]) in c.files)
    {
      PublishedArchiveSource(d, c.files, s.tr, s.k, id);
    }
    ClosedIsArchived(m.local, m.files);
    assert Intact(Next(c, s)) <==> Closed(PublishedIndex(m.local), m.files);
  }

  lemma ClosedIsArchived(local: Skills, files: Files)
    ensures Closed(PublishedIndex(local), files) <==> forall id :: id in local ==>
      ArchivePath(SHARED_SOURCE, id, local[id]) in files
  {
    var index := PublishedIndex(local);
    assert forall id :: id in local ==> ArchiveOf(id, index[id]) == ArchivePath(SHARED_SOURCE, id, local[id]);
  }

  /** With shared naming, a push that meets no skewed skill finds every archive it does not upload. */
  lemma UnskewedPushIsArchived(c: Cluster, s: Step)
    requires Intact(c) && SharedNaming(c) && Enabled(c, s)
    requires s.Cycle? && PushesUnskewed(c, s) && IndexWritten(s.tr, s.k)
    ensures
      var d := c.devices[s.device];
      Archived(Install(d.local, d.cache, s.tr.installs), s.tr.puts, c.files)
  {
    hide CrashAt, Executable, ValidTrace, SkewedIn, Install;
    var d := c.devices[s.device];
    var local := Install(d.local, d.cache, s.tr.installs);
    CachedArchivesAreShared(c, s.device);
    forall id | id in local && id !in s.tr.puts
      ensures ArchivePath(SHARED_SOURCE, id, local[id]) in c.files
    {
      PublishedArchiveSource(d, c.files, s.tr, s.k, id);
      UnpushedMatchesCache(d, c.files, s.tr, s.k, id);
    }
  }

  /** A cycle that put an index only did so with every archive in place. */
  ghost predicate StepIsArchived(c: Cluster, s: Step) {
    s.Cycle? && s.device in c.devices && IndexWritten(s.tr, s.k) ==>
      var d := c.devices[s.device];
      Archived(Install(d.local, d.cache, s.tr.installs), s.tr.puts, c.files)
  }

  /** Every step keeps integrity, except an index put of a cycle whose archives are not in place; that one breaks it. */
  lemma StepKeepsIntactIff(c: Cluster, s: Step)
    requires Intact(c) && Enabled(c, s)
    ensures Intact(Next(c, s)) <==> StepIsArchived(c, s)
  {
    match s
    case Cycle(_, _, _) =>
      if IndexWritten(s.tr, s.k) {
        PushKeepsIntactIff(c, s);
      } else {
        UnfinishedCycleKeepsIntact(c, s);
      }
    case Approve(_, _, _) => ApprovalKeepsIntact(c, s);
    case _ => OtherStepKeepsIntact(c, s);
  }

  lemma UnfinishedCycleKeepsIntact(c: Cluster, s: Step)
    requires Intact(c) && Enabled(c, s) && s.Cycle? && !IndexWritten(s.tr, s.k)
    ensures Intact(Next(c, s))
  {
    hide CrashAt, Executable, ValidTrace, IndexWritten;
    var d := c.devices[s.device];
    ArchivesOnlyAccumulate(MachineOf(d, c.files), d.cache, s.tr, s.k);
    CrashedIndex(MachineOf(d, c.files), d.cache, s.tr, s.k);
    CrashedIndexBlob(MachineOf(d, c.files), d.cache, s.tr, s.k);
  }

  /** With shared naming and no skewed skill a cycle has its archives in place, and naming stays shared. */
  lemma UnskewedCycleIsArchived(c: Cluster, s: Step)
    requires Intact(c) && SharedNaming(c) && Enabled(c, s) && s.Cycle? && PushesUnskewed(c, s)
    ensures StepIsArchived(c, s) && SharedNaming(Next(c, s))
  {
    hide CrashAt, Executable, ValidTrace, IndexWritten, SkewedIn;
    var d := c.devices[s.device];
    CrashedIndex(MachineOf(d, c.files), d.cache, s.tr, s.k);
    if IndexWritten(s.tr, s.k) {
      UnskewedPushIsArchived(c, s);
    }
  }

  lemma CachedArchivesAreShared(c: Cluster, n: DeviceId)
    requires Intact(c) && SharedNaming(c) && n in c.devices
    ensures
      var cache := c.devices[n].cache;
      forall id :: id in cache ==> ArchivePath(SHARED_SOURCE, id, cache[id].content) in c.files
  {
    var cache := c.devices[n].cache;
    assert Closed(cache, c.files);
    forall id | id in cache
      ensures ArchivePath(SHARED_SOURCE, id, cache[id].content) in c.files
    {
      assert ArchiveOf(id, cache[id]) in c.files;
    }
  }

  lemma CrashedIndexBlob(m: Machine, idx: Index, tr: Trace, k: nat)
    requires IndexPath in m.files ==> m.files[IndexPath].IndexBlob?
    ensures
      var files := CrashAt(m, idx, tr, k).files;
      && (IndexPath in files ==> files[IndexPath].IndexBlob?)
      && (IndexPath in files <==> IndexPath in m.files || IndexWritten(tr, k))
  {
  }

  lemma ApprovedIndexIsClosed(d: Device, ids: seq<SkillId>, stored: Files)
    requires Closed(d.cache, stored)
    requires forall id :: id in ids ==> id in d.local
    requires forall p :: p in PublishedArchives(d.local, ids) ==> p in stored
    ensures Closed(ApprovedIndex(d, ids), stored)
  {
    var index := ApprovedIndex(d, ids);
    forall id | id in index
      ensures ArchiveOf(id, index[id]) in stored
    {
      if id in ids {
        PublishedArchiveAt(d.local, ids, id, d.local[id]);
        assert ArchiveOf(id, index[id]) == ArchivePath(SHARED_SOURCE, id, d.local[id]);
      } else {
        assert index[id] == d.cache[id];
      }
    }
  }

  /** An approved push keeps integrity whatever source names the remote uses. */
  lemma ApprovalKeepsIntact(c: Cluster, s: Step)
    requires Intact(c) && Enabled(c, s) && s.Approve?
    ensures Intact(Next(c, s))
  {
    hide ApprovedIndex, PublishedArchives, RemoteMatchesCache;
    var d := c.devices[s.device];
    var c' := Next(c, s);
    var stored := c.files + PublishedArchives(d.local, Take(s.ids, s.k));
    assert forall p :: p in c.files ==> p in stored;
    assert forall p :: p in stored ==> p in c'.files;
    if s.k > |s.ids| {
      assert Take(s.ids, s.k) == s.ids;
      ApprovedIndexIsClosed(d, s.ids, c'.files);
    } else {
      NoIndexAmongArchives(d.local, Take(s.ids, s.k));
    }
  }

  lemma NoIndexAmongArchives(local: Skills, ids: seq<SkillId>)
    ensures IndexPath !in PublishedArchives(local, ids)
  {
  }

  lemma OtherStepKeepsIntact(c: Cluster, s: Step)
    requires Intact(c) && Enabled(c, s) && (s.Edit? || s.Download?)
    ensures Intact(Next(c, s))
  {
  }

  lemma OtherStepKeepsNaming(c: Cluster, s: Step)
    requires Intact(c) && SharedNaming(c) && Enabled(c, s) && !s.Cycle?
    ensures SharedNaming(Next(c, s))
  {
    hide ApprovedIndex, PublishedArchives, RemoteMatchesCache, Closed;
    if s.Approve? {
      ApprovedIndexIsShared(c.devices[s.device], s.ids);
    }
  }

  lemma ApprovedIndexIsShared(d: Device, ids: seq<SkillId>)
    requires forall id :: id in d.cache ==> d.cache[id].source == SHARED_SOURCE
    ensures forall id :: id in ApprovedIndex(d, ids) ==> ApprovedIndex(d, ids)[id].source == SHARED_SOURCE
  {
  }

  /** The cluster was intact after every step so far. */
  ghost predicate AlwaysIntact(c: Cluster, steps: seq<Step>)
    requires ValidRun(c, steps)
    decreases |steps|
  {
    Intact(After(c, steps)) && (steps == [] || AlwaysIntact(c, steps[..|steps| - 1]))
  }

  ghost predicate AllArchived(c: Cluster, steps: seq<Step>)
    requires ValidRun(c, steps)
    decreases |steps|
  {
    steps == [] ||
    (AllArchived(c, steps[..|steps| - 1]) && StepIsArchived(After(c, steps[..|steps| - 1]), steps[|steps| - 1]))
  }

  /**
   Index integrity at every instant, exactly: from a closed remote, after any run of edits, downloads, cycles and
   approved pushes, each cut short after any single put, every archive named by any index ever stored exists at all
   times, so that a reader holding any past index can finish its download, if and only if every index put of a
   cycle found the archives it did not upload under the shared source name. Approved pushes never break it.
   */
  lemma {:induction false} IntegrityIff(c: Cluster, steps: seq<Step>)
    requires Intact(c) && ValidRun(c, steps)
    ensures AlwaysIntact(c, steps) <==> AllArchived(c, steps)
    decreases |steps|
  {
    hide Intact, StepIsArchived, Enabled, Next;
    if steps != [] {
      IntegrityIff(c, steps[..|steps| - 1]);
      if AlwaysIntact(c, steps[..|steps| - 1]) {
        AlwaysIntactNow(c, steps[..|steps| - 1]);
        StepKeepsIntactIff(After(c, steps[..|steps| - 1]), steps[|steps| - 1]);
      }
    }
  }

  lemma AlwaysIntactNow(c: Cluster, steps: seq<Step>)
    requires ValidRun(c, steps) && AlwaysIntact(c, steps)
    ensures Intact(After(c, steps))
  {
  }

  ghost predicate Unskewed(c: Cluster, steps: seq<Step>)
    requires ValidRun(c, steps)
    decreases |steps|
  {
    steps == [] ||
    (Unskewed(c, steps[..|steps| - 1]) && PushesUnskewed(After(c, steps[..|steps| - 1]), steps[|steps| - 1]))
  }

  /** With shared archive naming and no skewed skill in a pushing cycle, integrity holds at every instant of a run. */
  lemma {:induction false} IndexIntegrity(c: Cluster, steps: seq<Step>)
    requires Intact(c) && SharedNaming(c)
    requires ValidRun(c, steps) && Unskewed(c, steps)
    ensures AlwaysIntact(c, steps) && SharedNaming(After(c, steps))
    decreases |steps|
  {
    hide Intact, StepIsArchived, Enabled, Next, SharedNaming, PushesUnskewed;
    if steps != [] {
      var before, s := After(c, steps[..|steps| - 1]), steps[|steps| - 1];
      IndexIntegrity(c, steps[..|steps| - 1]);
      AlwaysIntactNow(c, steps[..|steps| - 1]);
      StepKeepsIntactIff(before, s);
      if s.Cycle? {
        UnskewedCycleIsArchived(before, s);
      } else {
        OtherStepKeepsNaming(before, s);
        OtherStepIsArchived(before, s);
      }
    }
  }

  lemma OtherStepIsArchived(c: Cluster, s: Step)
    requires !s.Cycle?
    ensures StepIsArchived(c, s)
  {
  }

  // A device that edited skill "a"; the remote stores the unchanged skill "b" under a foreign source name.
  const BEFORE_EDIT := Content("1", GlobalScope, {})
  const AFTER_EDIT := Content("2", GlobalScope, {})
  const OTHER := Content("3", GlobalScope, {})
  const FOREIGN_INDEX: Index := map["a" := Entry(BEFORE_EDIT, SHARED_SOURCE, false),
    "b" := Entry(OTHER, "skillshub", false)]
  const FOREIGN_FILES: Files := map[
    IndexPath := IndexBlob(FOREIGN_INDEX),
    ArchivePath(SHARED_SOURCE, "a", BEFORE_EDIT) := ArchiveBlob(BEFORE_EDIT),
    ArchivePath("skillshub", "b", OTHER) := ArchiveBlob(OTHER)]
  const FOREIGN_DEVICE := Device(map["a" := AFTER_EDIT, "b" := OTHER], map["a" := BEFORE_EDIT, "b" := OTHER],
        FOREIGN_INDEX,
                                 Config(false, false, PushPull, map[], CcSwitchGlobal), {}, {})
  const FOREIGN_CLUSTER := Cluster(map["mac" := FOREIGN_DEVICE], FOREIGN_FILES, {FOREIGN_INDEX})
  const FOREIGN_PUSH := Cycle("mac", Trace([], ["a"]), 3)

  lemma ForeignPlanOf(id: SkillId)
    ensures
      var d := FOREIGN_DEVICE;
      var m := MachineOf(d, FOREIGN_FILES);
      && MayRun(d.cfg, m, d.cache, id) && !SkewedIn(d.cfg, m, d.cache, id)
      && (ToPush(d.cfg, m, d.cache, id) <==> id == "a")
      && !ToPull(d.cfg, m, d.cache, id)
  {
    hide Installable;
    var d := FOREIGN_DEVICE;
    var m := MachineOf(d, FOREIGN_FILES);
    if id == "a" {
      assert PlanAt(d.cfg, m.base, m.local, d.cache, id).action == PushSkill;
    } else if id == "b" {
      assert PlanAt(d.cfg, m.base, m.local, d.cache, id).status == Unchanged;
    } else {
      UnknownIdIsNoop(d.cfg, m, d.cache, id);
    }
  }

  lemma ForeignPushIsEnabled()
    ensures Enabled(FOREIGN_CLUSTER, FOREIGN_PUSH) && PushesUnskewed(FOREIGN_CLUSTER, FOREIGN_PUSH)
  {
    hide PlanAt, MayRun, SkewedIn, ToPush, ToPull;
    var d := FOREIGN_DEVICE;
    var m := MachineOf(d, FOREIGN_FILES);
    forall id {
      ForeignPlanOf(id);
    }
    PullAndPushIds(d.cfg, m, d.cache);
  }

  /**
   Why the shared naming is needed: a device pushes one skill while another, unchanged one is stored under a
   different source name. The new index names the unchanged skill's archive under the shared name, where
   nothing was uploaded.
   */
  lemma ForeignNamingBreaksIntegrity()
    ensures Intact(FOREIGN_CLUSTER) && Enabled(FOREIGN_CLUSTER, FOREIGN_PUSH)
      && PushesUnskewed(FOREIGN_CLUSTER, FOREIGN_PUSH)
    ensures !Intact(Next(FOREIGN_CLUSTER, FOREIGN_PUSH))
  {
    ForeignPushIsEnabled();
    hide Enabled, PushesUnskewed, Next, CrashAt;
    PushKeepsIntactIff(FOREIGN_CLUSTER, FOREIGN_PUSH);
    var local := Install(FOREIGN_DEVICE.local, FOREIGN_DEVICE.cache, []);
    assert "b" in local && local["b"] == OTHER && ArchivePath(SHARED_SOURCE, "b", OTHER) !in FOREIGN_FILES;
  }
}
