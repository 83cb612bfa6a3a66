/**
 One device's sync cycle as a sequence of atomic effects: installs, archive puts, the index put and the base
 write. A crash (or an error) leaves the effects of a prefix.
 */
module SyncCycle {
  import opened Common
  import opened SyncState
  import opened SyncPlan
  import opened Remote

  /** The source name under which every device publishes. */
  const SHARED_SOURCE := "cc-switch"

  /** A device's local root and base record together with the remote it talks to. */
  datatype Machine = Machine(local: Skills, base: Skills, files: Files)

  function ActionOf(cfg: Config, m: Machine, idx: Index, id: SkillId): PlanAction {
    PlanAt(cfg, m.base, m.local, idx, id).action
  }

  predicate ToPull(cfg: Config, m: Machine, idx: Index, id: SkillId) {
    IsPull(ActionOf(cfg, m, idx, id))
  }

  predicate ToPush(cfg: Config, m: Machine, idx: Index, id: SkillId) {
    IsPush(ActionOf(cfg, m, idx, id))
  }

  function PullIds(cfg: Config, m: Machine, idx: Index): set<SkillId> {
    set id | id in Ids(m.base, m.local, idx) && ToPull(cfg, m, idx, id)
  }

  function PushIds(cfg: Config, m: Machine, idx: Index): set<SkillId> {
    set id | id in Ids(m.base, m.local, idx) && ToPush(cfg, m, idx, id)
  }

  /** An id no side knows is a no-op. */
  lemma UnknownIdIsNoop(cfg: Config, m: Machine, idx: Index, id: SkillId)
    requires id !in Ids(m.base, m.local, idx)
    ensures PlanAt(cfg, m.base, m.local, idx, id) == PlanItem(SameWithoutBase, Noop, true)
  {
  }

  lemma PullAndPushIds(cfg: Config, m: Machine, idx: Index)
    ensures forall id :: id in PullIds(cfg, m, idx) <==> ToPull(cfg, m, idx, id)
    ensures forall id :: id in PushIds(cfg, m, idx) <==> ToPush(cfg, m, idx, id)
  {
    forall id
      ensures id in PullIds(cfg, m, idx) <==> ToPull(cfg, m, idx, id)
      ensures id in PushIds(cfg, m, idx) <==> ToPush(cfg, m, idx, id)
    {
      if id !in Ids(m.base, m.local, idx) {
        UnknownIdIsNoop(cfg, m, idx, id);
      }
    }
  }

  /** The gate: nothing blocked, no deletion planned, and every pulled skill installable into the target. */
  ghost predicate Executable(cfg: Config, m: Machine, idx: Index) {
    forall id :: MayRun(cfg, m, idx, id)
  }

  predicate MayRun(cfg: Config, m: Machine, idx: Index, id: SkillId) {
    && PlanAt(cfg, m.base, m.local, idx, id).allowed
    && ActionOf(cfg, m, idx, id) !in {DeleteLocal, DeprecateRemote}
    && (ToPull(cfg, m, idx, id) ==> id in idx && Installable(idx[id].content, cfg.target))
  }

  /** The sets of pulled and pushed ids, in execution order. */
  datatype Trace = Trace(installs: seq<SkillId>, puts: seq<SkillId>)
  {
    function Total(): nat {
      |installs| + |puts| + (if puts != [] then 1 else 0) + (if installs != [] || puts != [] then 1 else 0)
    }
  }

  ghost predicate ListsSet(s: seq<SkillId>, ids: set<SkillId>) {
    && (forall i, j :: 0 <= i < j < |s| ==> s[i] != s[j])
    && (forall id :: id in s <==> id in ids)
  }

  ghost predicate ValidTrace(cfg: Config, m: Machine, idx: Index, tr: Trace) {
    ListsSet(tr.installs, PullIds(cfg, m, idx)) && ListsSet(tr.puts, PushIds(cfg, m, idx))
  }

  function Take<T>(s: seq<T>, k: int): seq<T> {
    if k <= 0 then [] else if k >= |s| then s else s[..k]
  }

  function Install(local: Skills, idx: Index, ids: seq<SkillId>): Skills {
    local + map id | id in ids && id in idx :: idx[id].content
  }

  function PublishedIndex(local: Skills): Index {
    map id | id in local :: Entry(local[id], SHARED_SOURCE, false)
  }

  function PublishedArchives(local: Skills, ids: seq<SkillId>): Files {
    map id | id in ids && id in local :: ArchivePath(SHARED_SOURCE, id, local[id]) := ArchiveBlob(local[id])
  }

  /** The base a completed cycle records: the published hashes after a push, else just the pulled skills. */
  function NewBase(m: Machine, idx: Index, tr: Trace): Skills {
    if tr.puts != [] then Install(m.local, idx, tr.installs)
    else Install(map[], idx, tr.installs)
  }

  /** The machine after the first `k` effects of a cycle that planned from index `idx`. */
  function CrashAt(m: Machine, idx: Index, tr: Trace, k: nat): Machine {
    var n, p := |tr.installs|, |tr.puts|;
    var final := Install(m.local, idx, tr.installs);
    Machine(
      Install(m.local, idx, Take(tr.installs, k)),
      if 0 < tr.Total() <= k then NewBase(m, idx, tr) else m.base,
      m.files + PublishedArchives(final, Take(tr.puts, k - n))
              + if p > 0 && k > n + p then map[IndexPath := IndexBlob(PublishedIndex(final))] else map[])
  }

  function Completed(m: Machine, idx: Index, tr: Trace): Machine {
    CrashAt(m, idx, tr, tr.Total())
  }

  predicate IndexWritten(tr: Trace, k: nat) {
    tr.puts != [] && k > |tr.installs| + |tr.puts|
  }

  predicate BaseWritten(tr: Trace, k: nat) {
    0 < tr.Total() <= k
  }

  lemma InstallAt(local: Skills, idx: Index, ids: seq<SkillId>, id: SkillId)
    ensures Get(Install(local, idx, ids), id) ==
          if id in ids && id in idx then Some(idx[id].content) else Get(local, id)
  {
  }

  lemma PublishedAt(local: Skills, id: SkillId)
    ensures Get(PublishedIndex(local), id) == if id in local then Some(Entry(local[id], SHARED_SOURCE, false)) else None
  {
  }

  lemma CrashedIndex(m: Machine, idx: Index, tr: Trace, k: nat)
    ensures IndexOf(CrashAt(m, idx, tr, k).files) ==
              if IndexWritten(tr, k) then PublishedIndex(CrashAt(m, idx, tr, k).local) else IndexOf(m.files)
  {
    var c := CrashAt(m, idx, tr, k);
    if IndexWritten(tr, k) {
      assert Take(tr.installs, k) == tr.installs;
      assert c.files[IndexPath] == IndexBlob(PublishedIndex(c.local));
    } else {
      assert IndexPath in c.files <==> IndexPath in m.files;
    }
  }

  /** What a crash leaves for one skill. */
  lemma CrashSides(cfg: Config, m: Machine, idx: Index, tr: Trace, k: nat, id: SkillId)
    requires Executable(cfg, m, idx) && ValidTrace(cfg, m, idx, tr)
    ensures
      var c := CrashAt(m, idx, tr, k);
      && Get(c.local, id) == (if id in Take(tr.installs, k) then ContentOf(Get(idx, id)) else Get(m.local, id))
      && Get(IndexOf(c.files), id) ==
           (if !IndexWritten(tr, k) then Get(IndexOf(m.files), id)
            else if id in c.local then Some(Entry(c.local[id], SHARED_SOURCE, false)) else None)
      && Get(c.base, id) ==
           (if !BaseWritten(tr, k) then Get(m.base, id)
            else if tr.puts != [] then Get(c.local, id)
            else if id in tr.installs then ContentOf(Get(idx, id)) else None)
  {
    assert id in tr.installs ==> id in idx by {
      PullAndPushIds(cfg, m, idx);
      assert MayRun(cfg, m, idx, id);
    }
    hide PlanAt, PublishedArchives, PublishedIndex, Install;
    InstallAt(m.local, idx, Take(tr.installs, k), id);
    InstallAt(m.local, idx, tr.installs, id);
    InstallAt(map[], idx, tr.installs, id);
    CrashedIndex(m, idx, tr, k);
    PublishedAt(CrashAt(m, idx, tr, k).local, id);
    assert id in Take(tr.installs, k) ==> id in tr.installs;
    assert BaseWritten(tr, k) ==> Take(tr.installs, k) == tr.installs;
  }
}
