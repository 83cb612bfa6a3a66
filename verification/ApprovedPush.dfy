/** Pushing explicitly approved skills into the shared index, and what that does to the next classification. */
module ApprovedPush {
  import opened Common
  import opened SyncState
  import opened SyncPlan
  import opened Remote
  import opened SyncCycle
  import opened SyncApply
  import opened SyncDevice
  import opened WriterPolicies
  import opened Ordering
  import opened SkillIds

  /** The skills of an index file, in file order. */
  type Listing = seq<(SkillId, Entry)>

  /** The first entry listed for an id. */
  function Lookup(listing: Listing, id: SkillId): Option<Entry> {
    if listing == [] then None
    else if listing[0].0 == id then Some(listing[0].1)
    else Lookup(listing[1..], id)
  }

  function ListedIds(listing: Listing): set<SkillId> {
    set i | 0 <= i < |listing| :: listing[i].0
  }

  function LocalEntry(content: Content): Entry {
    Entry(content, SHARED_SOURCE, false)
  }

  /** `merged` is the cached listing with approved entries replaced in place and new ones appended in sorted order. */
  ghost predicate IsMerge(listing: Listing, local: Skills, approved: set<SkillId>, merged: Listing, added: seq<SkillId>)
    requires approved <= local.Keys
  {
    && |merged| == |listing| + |added|
    && (forall i :: 0 <= i < |listing| ==>
          merged[i] == if listing[i].0 in approved then (listing[i].0, LocalEntry(local[listing[i].0])) else listing[i])
    && Ascending(added)
    && (forall id :: id in added <==> id in approved && id !in ListedIds(listing))
    && (forall j :: 0 <= j < |added| ==>
      added[j] in local && merged[|listing| + j] == (added[j], LocalEntry(local[added[j]])))
  }

  /** Builds the merged listing; it fails exactly when an approved skill is missing locally. */
  method BuildMergedListing(listing: Listing, local: Skills, approved: set<SkillId>)
    returns (r: Result<Listing, SkillId>, ghost added: seq<SkillId>)
    ensures r.Ok? <==> approved <= local.Keys
    ensures r.Err? ==> r.error in approved && r.error !in local
    ensures r.Ok? ==> IsMerge(listing, local, approved, r.value, added)
  {
    var merged: Listing := [];
    added := [];
    for i := 0 to |listing|
      invariant |merged| == i
      invariant forall j :: 0 <= j < i ==>
                  if listing[j].0 in approved then listing[j].0 in local
                    && merged[j] == (listing[j].0, LocalEntry(local[listing[j].0]))
                  else merged[j] == listing[j]
    {
      var id := listing[i].0;
      if id in approved {
        if id !in local { return Err(id), added; }
        merged := merged + [(id, LocalEntry(local[id]))];
      } else {
        merged := merged + [listing[i]];
      }
    }
    var fresh' := Sorted(approved - ListedIds(listing));
    for j := 0 to |fresh'|
      invariant |merged| == |listing| + j
      invariant forall i :: 0 <= i < |listing| ==>
                  if listing[i].0 in approved then listing[i].0 in local
                    && merged[i] == (listing[i].0, LocalEntry(local[listing[i].0]))
                  else merged[i] == listing[i]
      invariant forall i :: 0 <= i < j ==>
        fresh'[i] in local && merged[|listing| + i] == (fresh'[i], LocalEntry(local[fresh'[i]]))
    {
      var id := fresh'[j];
      if id !in local { assert id in fresh'; return Err(id), added; }
      merged := merged + [(id, LocalEntry(local[id]))];
    }
    forall id | id in approved
      ensures id in local
    {
      if id in ListedIds(listing) {
        var i :| 0 <= i < |listing| && listing[i].0 == id;
      } else {
        assert id in fresh';
      }
    }
    return Ok(merged), fresh';
  }

  lemma {:induction false} LookupAppend(a: Listing, b: Listing, id: SkillId)
    ensures Lookup(a + b, id) == if id in ListedIds(a) then Lookup(a, id) else Lookup(b, id)
    decreases |a|
  {
    if a == [] {
      assert a + b == b;
    } else {
      assert (a + b)[1..] == a[1..] + b;
      LookupAppend(a[1..], b, id);
      assert forall i :: 0 < i < |a| ==> a[i] == a[1..][i - 1];
      assert id in ListedIds(a) <==> id == a[0].0 || id in ListedIds(a[1..]) by {
        if i :| 0 <= i < |a[1..]| && a[1..][i].0 == id { assert a[i + 1].0 == id; }
      }
    }
  }

  /** Replacing entries in place answers lookups with the replacement. */
  lemma {:induction false} LookupReplaced(listing: Listing, local: Skills, approved: set<SkillId>, merged: Listing,
                                          id: SkillId)
    requires approved <= local.Keys && |merged| == |listing|
    requires forall i :: 0 <= i < |listing| ==>
               merged[i] ==
                 if listing[i].0 in approved then (listing[i].0, LocalEntry(local[listing[i].0])) else listing[i]
    ensures Lookup(merged, id) ==
              if id in approved && id in ListedIds(listing) then Some(LocalEntry(local[id])) else Lookup(listing, id)
    ensures ListedIds(merged) == ListedIds(listing)
    decreases |listing|
  {
    if listing != [] {
      LookupReplaced(listing[1..], local, approved, merged[1..], id);
      OneMoreId(listing);
      OneMoreId(merged);
    }
  }

  lemma OneMoreId(listing: Listing)
    requires listing != []
    ensures ListedIds(listing) == {listing[0].0} + ListedIds(listing[1..])
  {
    assert forall i :: 0 < i < |listing| ==> listing[i] == listing[1..][i - 1];
    assert forall i :: 0 <= i < |listing[1..]| ==> listing[1..][i] == listing[i + 1];
  }

  lemma {:induction false} LookupAdded(local: Skills, added: seq<SkillId>, tail: Listing, id: SkillId)
    requires |tail| == |added|
    requires forall j :: 0 <= j < |added| ==> added[j] in local && tail[j] == (added[j], LocalEntry(local[added[j]]))
    ensures Lookup(tail, id) == if id in added then Some(LocalEntry(local[id])) else None
    decreases |added|
  {
    if added != [] {
      LookupAdded(local, added[1..], tail[1..], id);
    }
  }

  /** The merged listing is the cached index updated at exactly the approved ids. */
  lemma MergeUpdatesApprovedIds(listing: Listing, local: Skills, approved: set<SkillId>, merged: Listing,
                                added: seq<SkillId>, id: SkillId)
    requires approved <= local.Keys && IsMerge(listing, local, approved, merged, added)
    ensures Lookup(merged, id) == if id in approved then Some(LocalEntry(local[id])) else Lookup(listing, id)
  {
    var n := |listing|;
    assert merged == merged[..n] + merged[n..];
    LookupReplaced(listing, local, approved, merged[..n], id);
    LookupAdded(local, added, merged[n..], id);
    LookupAppend(merged[..n], merged[n..], id);
    UnlistedLookup(listing, id);
  }

  lemma {:induction false} UnlistedLookup(listing: Listing, id: SkillId)
    ensures Lookup(listing, id).Some? <==> id in ListedIds(listing)
    decreases |listing|
  {
    if listing != [] {
      OneMoreId(listing);
      UnlistedLookup(listing[1..], id);
    }
  }

  /** A merge never introduces a second entry for an id. */
  lemma MergeKeepsIdsUnique(listing: Listing, local: Skills, approved: set<SkillId>, merged: Listing,
                            added: seq<SkillId>, id: SkillId)
    requires approved <= local.Keys && IsMerge(listing, local, approved, merged, added)
    ensures Repeated(merged, id) <==> Repeated(listing, id)
  {
    var n := |listing|;
    forall i, j | 0 <= i < j < |merged| && n <= j
      ensures merged[i].0 != merged[j].0
    {
      assert added[j - n] in added;
      LessIsTotal(merged[i].0, merged[j].0);
      assert i < n ==> merged[i].0 in ListedIds(listing);
      assert n <= i ==> Less(added[i - n], added[j - n]);
    }
    if Repeated(merged, id) {
      var i, j :| 0 <= i < j < |merged| && merged[i].0 == id && merged[j].0 == id;
      assert listing[i].0 == id && listing[j].0 == id;
    }
    if Repeated(listing, id) {
      var i, j :| 0 <= i < j < n && listing[i].0 == id && listing[j].0 == id;
      assert merged[i].0 == id && merged[j].0 == id;
    }
  }

  // ----- which skills may be approved ------------------------------------------------------------------

  datatype Category = WriterPolicyBlock | ConflictBlock | OtherBlock

  /** One skill of a blocked report: the three hashes it was blocked with, and why. */
  datatype ReportItem = ReportItem(base: Option<Content>, local: Option<Content>, remote: Option<Content>,
                                   category: Category, status: Status)

  datatype ApprovalError =
    | NotReported | NotPlanned | ChangedSinceReport | NotPolicyBlocked | NotPushCandidate | NotPushable

  predicate LocalWins(report: ReportItem, current: PlanItem, m: Machine, idx: Index, id: SkillId, allowed: bool) {
    && allowed && report.category == ConflictBlock && report.status == Conflict
    && current.status == Conflict && current.action == Blocked && !current.allowed
    && id in m.local && id in idx
  }

  /** The checks on one approved skill, in order; `Ok` carries whether it is a conflict the local side wins. */
  function ApprovedItem(cfg: Config, m: Machine, idx: Index, report: map<SkillId, ReportItem>, id: SkillId,
                        localWins: bool)
    : Result<bool, ApprovalError>
  {
    if id !in report then Err(NotReported)
    else if id !in Ids(m.base, m.local, idx) then Err(NotPlanned)
    else
      var item, current := report[id], PlanAt(cfg, m.base, m.local, idx, id);
      var now := (Get(m.base, id), Get(m.local, id), ContentOf(Get(idx, id)));
      if (item.base, item.local, item.remote) != now then Err(ChangedSinceReport)
      else if LocalWins(item, current, m, idx, id, localWins) then Ok(true)
      else if item.category != WriterPolicyBlock then Err(NotPolicyBlocked)
      else if item.status !in {Push, LocalNew} then Err(NotPushCandidate)
      else if !current.allowed || !IsPush(current.action) then Err(NotPushable)
      else Ok(false)
  }

  /**
   What an approval guarantees: the pushed content and the version it replaces are exactly the reported ones, and
   the replaced version is the device's base, unless the approver explicitly let the local side win a conflict
   between two present versions; then it is not.
   */
  lemma ApprovalReplacesReportedVersion(cfg: Config, m: Machine, idx: Index, report: map<SkillId, ReportItem>,
                                        id: SkillId, localWins: bool)
    requires ApprovedItem(cfg, m, idx, report, id, localWins).Ok?
    ensures id in report && id in m.local && report[id].local == Get(m.local, id)
    ensures report[id].remote == ContentOf(Get(idx, id)) && report[id].remote != report[id].local
    ensures ApprovedItem(cfg, m, idx, report, id, localWins).value ==>
              localWins && id in idx && report[id].remote != Get(m.base, id)
    ensures !ApprovedItem(cfg, m, idx, report, id, localWins).value ==> report[id].remote == Get(m.base, id)
  {
    hide Installable;
    PlannedActionMeans(cfg, id, Get(m.base, id), Get(m.local, id), Get(idx, id));
    if ApprovedItem(cfg, m, idx, report, id, localWins).value {
      ConflictMeans(cfg, id, Get(m.base, id), Get(m.local, id), Get(idx, id));
    }
  }

  /** Which skills may be pushed by approval, from the report and the three sides as they are now. */
  predicate Approvable(cfg: Config, m: Machine, idx: Index, report: map<SkillId, ReportItem>, id: SkillId,
                       localWins: bool) {
    && id in report
    && report[id].base == Get(m.base, id) && report[id].local == Get(m.local, id)
    && report[id].remote == ContentOf(Get(idx, id))
    && var now := StatusAt(cfg, m, idx, id);
       || (&& report[id].category == WriterPolicyBlock && report[id].status in {Push, LocalNew}
           && (now == Push || (now == LocalNew && cfg.allowNew)))
       || (&& localWins && report[id].category == ConflictBlock && report[id].status == Conflict
           && now == Conflict && id in m.local && id in idx)
  }

  /**
   Exactly the approvable skills pass the checks: unchanged since the report, and either blocked by the writer policy
   alone and a push candidate still, or a conflict of two present versions that the approver lets the local side win.
   */
  lemma ApprovedIffApprovable(cfg: Config, m: Machine, idx: Index, report: map<SkillId, ReportItem>, id: SkillId,
                              localWins: bool)
    ensures ApprovedItem(ApprovalConfig(cfg), m, idx, report, id, localWins).Ok? <==>
              Approvable(cfg, m, idx, report, id, localWins)
    ensures Approvable(cfg, m, idx, report, id, localWins) ==> id in m.local
  {
    hide Installable, ClassifyWithOverride, PlanSkill;
    ActionByStatus(ApprovalConfig(cfg), id, Get(m.base, id), Get(m.local, id), Get(idx, id));
    PlannedActionMeans(ApprovalConfig(cfg), id, Get(m.base, id), Get(m.local, id), Get(idx, id));
    if id !in Ids(m.base, m.local, idx) {
      UnknownIdIsNoop(ApprovalConfig(cfg), m, idx, id);
    }
  }

  /** The archives of the listed skills that the remote lacks. */
  function MissingArchives(local: Skills, ids: seq<SkillId>, files: Files): set<Path> {
    set id | id in ids && id in local && ArchivePath(SHARED_SOURCE, id, local[id]) !in files
      :: ArchivePath(SHARED_SOURCE, id, local[id])
  }

  lemma ConflictMeans(cfg: Config, id: SkillId, base: Option<Content>, local: Option<Content>, remote: Option<Entry>)
    requires PlanSkill(cfg, id, base, local, remote).status == Conflict
    ensures ContentOf(remote) != local && ContentOf(remote) != base && local != base
  {
  }

  // ----- the push itself ---------------------------------------------------------------------------------

  datatype PushError =
    | NoSkillSelected | DuplicateId(id: SkillId) | Refused(id: SkillId, error: ApprovalError)
    | CacheOutdated | UploadCutOff | BaseNotWritten

  ghost predicate ListsIndex(listing: Listing, index: Index) {
    forall id :: Lookup(listing, id) == Get(index, id)
  }

  function DictionaryOf(listing: Listing): (index: Index)
    ensures ListsIndex(listing, index)
  {
    if listing == [] then map[] else DictionaryOf(listing[1..])[listing[0].0 := listing[0].1]
  }

  /** Approvals are planned under the push-pull policy without deletions. */
  function ApprovalConfig(cfg: Config): Config {
    cfg.(policy := PushPull, allowDelete := false)
  }

  /** The index after a complete approved push: the cached one, with the approved skills as they are locally. */
  ghost predicate IsApprovedIndex(index: Index, cached: Index, local: Skills, ids: seq<SkillId>) {
    forall id :: Get(index, id) == if id in ids && id in local then Some(LocalEntry(local[id])) else Get(cached, id)
  }

  lemma MergedIndexIsApproved(listing: Listing, cached: Index, local: Skills, ids: seq<SkillId>, merged: Listing,
                              added: seq<SkillId>)
    requires ListsIndex(listing, cached)
    requires IdSet(ids) <= local.Keys && IsMerge(listing, local, IdSet(ids), merged, added)
    ensures IsApprovedIndex(DictionaryOf(merged), cached, local, ids)
  {
    hide IsMerge, Lookup;
    var index := DictionaryOf(merged);
    forall id
      ensures Get(index, id) == if id in ids && id in local then Some(LocalEntry(local[id])) else Get(cached, id)
    {
      MergeUpdatesApprovedIds(listing, local, IdSet(ids), merged, added, id);
    }
  }

  lemma ApprovedIndexIsCovered(index: Index, cached: Index, local: Skills, ids: seq<SkillId>, files: Files)
    requires IsApprovedIndex(index, cached, local, ids) && Closed(cached, files)
    ensures Covered(index, files, ArchivePaths(local, IdSet(ids)))
  {
    forall id | id in index
      ensures ArchiveOf(id, index[id]) in files || ArchiveOf(id, index[id]) in ArchivePaths(local, IdSet(ids))
    {
      assert Get(index, id) == if id in ids && id in local then Some(LocalEntry(local[id])) else Get(cached, id);
    }
  }

  /** The selected ids; naming one twice or none at all is an error. */
  method NormalizeSkillIds(raw: seq<string>) returns (r: Result<seq<SkillId>, PushError>)
    ensures r.Ok? <==> GivenIds(raw) != [] && Distinct(GivenIds(raw))
    ensures r.Ok? ==> r.value == GivenIds(raw)
    ensures r.Err? ==> r.error.NoSkillSelected? || r.error.DuplicateId?
    ensures r == Err(NoSkillSelected) <==> GivenIds(raw) == []
  {
    hide StripBlanks;
    var result: seq<SkillId>, seen: set<SkillId> := [], {};
    for i := 0 to |raw|
      invariant result == GivenIds(raw[..i])
      invariant Distinct(result) && forall id :: id in seen <==> id in result
    {
      assert raw[..i + 1] == raw[..i] + [raw[i]] && raw[..i + 1][..i] == raw[..i];
      var id := StripBlanks(raw[i]);
      if id != "" {
        if id in seen {
          GivenIdsGrow(raw, i + 1);
          ghost var j :| 0 <= j < |result| && result[j] == id;
          assert (result + [id])[j] == GivenIds(raw)[j] && (result + [id])[|result|] == GivenIds(raw)[|result|];
          return Err(DuplicateId(id));
        }
        result, seen := result + [id], seen + {id};
      }
    }
    assert raw[..|raw|] == raw;
    return if result == [] then Err(NoSkillSelected) else Ok(result);
  }

  lemma {:induction false} GivenIdsGrow(raw: seq<string>, k: nat)
    requires k <= |raw|
    ensures GivenIds(raw[..k]) <= GivenIds(raw)
    decreases |raw| - k
  {
    hide StripBlanks;
    if k == |raw| {
      assert raw[..k] == raw;
    } else {
      assert raw[..k + 1][..k] == raw[..k];
      GivenIdsGrow(raw, k + 1);
    }
  }

  method CheckApprovals(d: Device, cfg: Config, report: map<SkillId, ReportItem>, ids: seq<SkillId>, localWins: bool)
    returns (problem: Option<PushError>)
    ensures problem.None? <==>
              ids != [] && forall id :: id in ids ==>
                Approvable(cfg, d.Before(), d.CachedIndex(), report, id, localWins)
    ensures ids == [] ==> problem == Some(NoSkillSelected)
    ensures problem.Some? && ids != [] ==> problem.value.Refused?
  {
    hide ApprovedItem, Approvable;
    if ids == [] { return Some(NoSkillSelected); }
    for i := 0 to |ids|
      invariant forall j :: 0 <= j < i ==>
        Approvable(cfg, d.Before(), d.CachedIndex(), report, ids[j], localWins)
    {
      ApprovedIffApprovable(cfg, d.Before(), d.CachedIndex(), report, ids[i], localWins);
      var checked := ApprovedItem(ApprovalConfig(cfg), d.Before(), d.CachedIndex(), report, ids[i], localWins);
      if checked.Err? {
        assert ids[i] in ids;
        return Some(Refused(ids[i], checked.error));
      }
    }
    return None;
  }

  /** Uploads the archives of the approved skills that the remote lacks, then the merged index. */
  method UploadApproved(d: Device, index: Index, ids: seq<SkillId>, budget: nat) returns (complete: bool)
    requires d.Valid() && IsApprovedIndex(index, d.CachedIndex(), d.root.nodes, ids)
    modifies d.remote
    ensures d.Valid()
    ensures complete <==> |MissingArchives(d.root.nodes, ids, old(d.remote.files))| < budget
    ensures IndexOf(d.remote.files) == if complete then index else IndexOf(old(d.remote.files))
    ensures old(d.remote.Intact()) && old(Closed(d.CachedIndex(), d.remote.files)) ==>
              && d.remote.Intact() && |old(d.remote.trace)| <= |d.remote.trace|
              && forall i :: |old(d.remote.trace)| <= i < |d.remote.trace| ==>
                Integrity(old(d.remote.past), d.remote.trace[i])
  {
    hide IsApprovedIndex, Closed, Integrity;
    var archives := ArchivePaths(d.root.nodes, IdSet(ids));
    if Closed(d.CachedIndex(), d.remote.files) {
      ApprovedIndexIsCovered(index, d.CachedIndex(), d.root.nodes, ids, d.remote.files);
    }
    assert archives * archives == archives;
    assert Needed(archives, true, d.remote.files) == MissingArchives(d.root.nodes, ids, d.remote.files);
    var uploaded;
    uploaded, complete := d.remote.UploadSnapshot(archives, index, archives, true, budget);
    assert Get(d.remote.files, IndexPath) ==
      if complete then Some(IndexBlob(index)) else Get(old(d.remote.files), IndexPath);
  }

  /** The selection of an approved push: some ids, none twice, all of them approvable. */
  ghost predicate Selectable(cfg: Config, m: Machine, idx: Index, report: map<SkillId, ReportItem>, ids: seq<SkillId>,
                             localWins: bool) {
    ids != [] && Distinct(ids) && forall id :: id in ids ==> Approvable(cfg, m, idx, report, id, localWins)
  }

  /**
   Pushes the approved skills. The inputs decide how it ends: it succeeds if and only if the selection is approvable,
   the remote holds the cached hashes, the connection lasts for the missing archives and the index, and the record can
   be written. Nothing is put unless the first two hold. The remote stays intact after every single put, whatever
   source names it uses. On success the remote index is the cached one updated at the approved skills, and its hashes
   are the next base.
   */
  method ExecuteApprovedPush(d: Device, cfg: Config, listing: Listing, report: map<SkillId, ReportItem>,
                             raw: seq<string>, localWins: bool, env: Env)
    returns (r: Result<Skills, PushError>)
    requires d.Valid() && ListsIndex(listing, d.CachedIndex())
    modifies d.remote
    ensures d.Valid()
    ensures
      var ids := GivenIds(raw);
      var selectable := Selectable(cfg, old(d.Before()), d.CachedIndex(), report, ids, localWins);
      var missing := |MissingArchives(d.root.nodes, ids, old(d.remote.files))|;
      && (r == Err(NoSkillSelected) <==> ids == [])
      && (r.Err? && r.error.DuplicateId? <==> ids != [] && !Distinct(ids))
      && (r.Err? && r.error.Refused? <==> ids != [] && Distinct(ids) && !selectable)
      && (r == Err(CacheOutdated) <==> selectable && !old(d.RemoteMatchesCache()))
      && (r == Err(UploadCutOff) <==> selectable && old(d.RemoteMatchesCache()) && env.putBudget <= missing)
      && (r == Err(BaseNotWritten) <==>
            selectable && old(d.RemoteMatchesCache()) && missing < env.putBudget && env.baseRecordFails)
      && (r.Ok? <==> selectable && old(d.RemoteMatchesCache()) && missing < env.putBudget && !env.baseRecordFails)
    ensures r.Err? && r.error !in {UploadCutOff, BaseNotWritten} ==>
              d.remote.files == old(d.remote.files) && d.remote.trace == old(d.remote.trace)
    ensures r == Err(UploadCutOff) ==> IndexOf(d.remote.files) == IndexOf(old(d.remote.files))
    ensures r.Ok? || r == Err(BaseNotWritten) ==>
      IsApprovedIndex(IndexOf(d.remote.files), d.CachedIndex(), d.root.nodes, GivenIds(raw))
    ensures r.Ok? ==> r.value == Hashes(IndexOf(d.remote.files))
    ensures old(d.remote.Intact()) && old(Closed(d.CachedIndex(), d.remote.files)) ==>
              && d.remote.Intact() && |old(d.remote.trace)| <= |d.remote.trace|
              && forall i :: |old(d.remote.trace)| <= i < |d.remote.trace| ==>
                Integrity(old(d.remote.past), d.remote.trace[i])
  {
    hide ApprovedItem, Approvable, IsMerge, Closed, Integrity, Hashes, GivenIds, HoldsContents, MissingArchives,
          IsApprovedIndex;
    var selected := NormalizeSkillIds(raw);
    if selected.Err? { return Err(selected.error); }
    var ids := selected.value;
    var problem := CheckApprovals(d, cfg, report, ids, localWins);
    if problem.Some? { return Err(problem.value); }
    forall id | id in ids {
      ApprovedIffApprovable(cfg, d.Before(), d.CachedIndex(), report, id, localWins);
    }
    var merged, added := BuildMergedListing(listing, d.root.nodes, IdSet(ids));
    assert merged.Ok?;   // an approvable skill is there locally
    if !d.RemoteMatchesCache() { return Err(CacheOutdated); }
    var index := DictionaryOf(merged.value);
    MergedIndexIsApproved(listing, d.CachedIndex(), d.root.nodes, ids, merged.value, added);
    var complete := UploadApproved(d, index, ids, env.putBudget);
    if !complete { return Err(UploadCutOff); }
    if env.baseRecordFails { return Err(BaseNotWritten); }
    return Ok(Hashes(index));
  }
}
