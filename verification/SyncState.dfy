/**
 Three-way classification of one skill from its last-applied base, the local root and the remote index.

 Skill contents are compared through an injective content hash, so a hash is modelled by the content it names.
 */
module SyncState {
  import opened Common

  type SkillId = string

  datatype Scope = GlobalScope | ProjectScope | OtherScope(text: string)

  /** A skill's content, with the manifest fields that the sync engine reads. */
  datatype Content = Content(payload: string, scope: Scope, targets: set<string>)

  /** An index entry; its archive path is derived from the source name, the skill id and the content hash. */
  datatype Entry = Entry(content: Content, source: string, deprecated: bool)

  type Skills = map<SkillId, Content>
  type Index = map<SkillId, Entry>

  /** `agree` holds the (local, remote) pairs whose projections without the ignored paths have equal hashes. */
  datatype Override = Override(localOnly: bool, agree: set<(Content, Content)>)

  datatype Status =
    | LocalOnly | LocalOverride | CentralDeprecated
    | RemoteNew | LocalNew | SameWithoutBase | Conflict
    | Unchanged | AlreadyConverged
    | RemoteDeleted | Pull | LocalDeleted | Push | DeletedBoth

  /** The classification by hashes alone, in the order the branches are tried. */
  function ClassifyHashes(base: Option<Content>, local: Option<Content>, remote: Option<Content>): Status {
    if base.None? then
      if local.None? && remote.Some? then RemoteNew
      else if local.Some? && remote.None? then LocalNew
      else if local == remote then SameWithoutBase
      else Conflict
    else if local == base && remote == base then Unchanged
    else if local == remote && local != base then AlreadyConverged
    else if local == base && remote != base then
      if remote.None? then RemoteDeleted else Pull
    else if remote == base && local != base then
      if local.None? then LocalDeleted else Push
    else if local.None? && remote.None? then DeletedBoth
    else Conflict
  }

  function ContentOf(e: Option<Entry>): Option<Content> {
    if e.Some? then Some(e.value.content) else None
  }

  function Classify(base: Option<Content>, local: Option<Content>, remote: Option<Entry>): Status {
    if remote.Some? && remote.value.deprecated then CentralDeprecated
    else ClassifyHashes(base, local, ContentOf(remote))
  }

  function ClassifyWithOverride(base: Option<Content>, local: Option<Content>, remote: Option<Entry>,
                                override: Option<Override>)
    : Status
  {
    var status := Classify(base, local, remote);
    if override.Some? && override.value.localOnly && local.Some? && remote.None? then LocalOnly
    else if override.None? || status !in {Push, Conflict, SameWithoutBase} then status
    else if local.None? || remote.None? then status
    else if (local.value, remote.value.content) in override.value.agree then LocalOverride
    else status
  }

  /** Statuses whose local and remote sides are left alone although they may differ. */
  predicate IsSpecial(s: Status) {
    s == LocalOnly || s == LocalOverride || s == CentralDeprecated
  }

  // ----- the reference: textbook three-way merge -------------------------------------------------

  datatype Merged = Agreed(result: Option<Content>) | Clash

  function Merge(base: Option<Content>, local: Option<Content>, remote: Option<Content>): Merged {
    if local == remote then Agreed(local)
    else if local == base then Agreed(remote)
    else if remote == base then Agreed(local)
    else Clash
  }

  /** The classification decides the three-way merge: who moved, and whether anything must be copied. */
  lemma ClassificationIsMerge(base: Option<Content>, local: Option<Content>, remote: Option<Content>)
    ensures
      var s := ClassifyHashes(base, local, remote);
      && (local == remote <==> s in {Unchanged, AlreadyConverged, SameWithoutBase, DeletedBoth})
      && (local != remote && local == base <==> s in {Pull, RemoteNew, RemoteDeleted})
      && (local != remote && remote == base <==> s in {Push, LocalNew, LocalDeleted})
      && (Merge(base, local, remote) == Clash <==> s == Conflict)
      && (s in {RemoteDeleted, LocalDeleted} <==> local != remote && Merge(base, local, remote) == Agreed(None))
  {
  }

  /** Every status by who holds what, independent of the order in which the branches are tried. */
  lemma StatusTable(base: Option<Content>, local: Option<Content>, remote: Option<Content>)
    ensures
      var s := ClassifyHashes(base, local, remote);
      && (s == Unchanged <==> base.Some? && base == local == remote)
      && (s == AlreadyConverged <==> base.Some? && local == remote != base)
      && (s == SameWithoutBase <==> base.None? && local == remote)
      && (s == RemoteNew <==> base.None? && local.None? && remote.Some?)
      && (s == LocalNew <==> base.None? && local.Some? && remote.None?)
      && (s == Pull <==> base.Some? && local == base && remote.Some? && remote != base)
      && (s == Push <==> base.Some? && remote == base && local.Some? && local != base)
      && (s == RemoteDeleted <==> base.Some? && local == base && remote.None?)
      && (s == LocalDeleted <==> base.Some? && remote == base && local.None?)
      && (s == Conflict <==> local != remote && local != base && remote != base)
  {
  }

  /** Exactly when an override or a deprecated entry takes a skill out of the merge; otherwise the hashes decide. */
  lemma SpecialStatuses(base: Option<Content>, local: Option<Content>, remote: Option<Entry>,
                        override: Option<Override>)
    ensures
      var s := ClassifyWithOverride(base, local, remote, override);
      var plain := ClassifyHashes(base, local, ContentOf(remote));
      && (s == LocalOnly <==> override.Some? && override.value.localOnly && local.Some? && remote.None?)
      && (s == CentralDeprecated <==> remote.Some? && remote.value.deprecated)
      && (s == LocalOverride <==>
            && override.Some? && local.Some? && remote.Some? && !remote.value.deprecated
            && plain in {Push, Conflict, SameWithoutBase}
            && (local.value, remote.value.content) in override.value.agree)
      && (!IsSpecial(s) ==> s == plain)
  {
  }

  function Mirror(s: Status): Status {
    match s
    case RemoteNew => LocalNew
    case LocalNew => RemoteNew
    case RemoteDeleted => LocalDeleted
    case LocalDeleted => RemoteDeleted
    case Pull => Push
    case Push => Pull
    case _ => s
  }

  /** Exchanging the two sides mirrors the classification: no side is favoured. */
  lemma ClassificationIsSymmetric(base: Option<Content>, local: Option<Content>, remote: Option<Content>)
    ensures ClassifyHashes(base, remote, local) == Mirror(ClassifyHashes(base, local, remote))
  {
  }

  // ----- the by-id dictionaries ------------------------------------------------------------------

  /** Entries without a skill id, here with an empty one, are skipped. */
  const NO_ID: SkillId := ""

  ghost predicate Repeated<E>(entries: seq<(SkillId, E)>, id: SkillId) {
    id != NO_ID && exists i, j :: 0 <= i < j < |entries| && entries[i].0 == id && entries[j].0 == id
  }

  ghost predicate Mentions<E>(entries: seq<(SkillId, E)>, id: SkillId) {
    id != NO_ID && exists i :: 0 <= i < |entries| && entries[i].0 == id
  }

  lemma OneMoreEntry<E>(entries: seq<(SkillId, E)>, k: nat)
    requires k < |entries|
    ensures !Mentions(entries[..k], NO_ID)
    ensures forall id :: Mentions(entries[..k + 1], id) <==> Mentions(entries[..k], id) || id == entries[k].0 != NO_ID
    ensures forall id :: Repeated(entries[..k + 1], id) <==>
              Repeated(entries[..k], id) || (id == entries[k].0 && Mentions(entries[..k], id))
  {
    var shorter, longer := entries[..k], entries[..k + 1];
    assert forall i :: 0 <= i < k ==> longer[i] == shorter[i];
    assert longer[k] == entries[k];
    forall id
      ensures Mentions(longer, id) <==> Mentions(shorter, id) || id == entries[k].0 != NO_ID
      ensures Repeated(longer, id) <==> Repeated(shorter, id) || (id == entries[k].0 && Mentions(shorter, id))
    {
      if Mentions(shorter, id) {
        var i :| 0 <= i < k && shorter[i].0 == id;
        assert longer[i].0 == id;
      }
      if Repeated(shorter, id) {
        var i, j :| 0 <= i < j < k && shorter[i].0 == id && shorter[j].0 == id;
        assert longer[i].0 == id && longer[j].0 == id;
      }
    }
  }

  ghost predicate Newest<E>(result: map<SkillId, E>, duplicates: set<SkillId>, entry: (SkillId, E)) {
    entry.0 == NO_ID || (entry.0 in result && (result[entry.0] == entry.1 || entry.0 in duplicates))
  }

  lemma NothingMentioned<E>(entries: seq<(SkillId, E)>)
    ensures forall id :: !Mentions(entries[..0], id) && !Repeated(entries[..0], id)
  {
  }

  /** Builds the dictionary of a list of entries; exactly the lists with a repeated id are refused. */
  method UniqueBySkillId<E>(entries: seq<(SkillId, E)>) returns (r: Result<map<SkillId, E>, set<SkillId>>)
    ensures r.Ok? <==> forall id :: !Repeated(entries, id)
    ensures r.Ok? ==> (forall id :: id in r.value <==> Mentions(entries, id))
                      && (forall i :: 0 <= i < |entries| && entries[i].0 != NO_ID ==>
                            Get(r.value, entries[i].0) == Some(entries[i].1))
    ensures r.Err? ==> forall id :: id in r.error <==> Repeated(entries, id)
  {
    hide Mentions, Repeated;
    var result: map<SkillId, E> := map[];
    var duplicates: set<SkillId> := {};
    NothingMentioned(entries);
    for k := 0 to |entries|
      invariant forall id :: id in result <==> Mentions(entries[..k], id)
      invariant forall id :: id in duplicates <==> Repeated(entries[..k], id)
      invariant forall i :: 0 <= i < k ==> Newest(result, duplicates, entries[i])
    {
      OneMoreEntry(entries, k);
      var id, e := entries[k].0, entries[k].1;
      if id != NO_ID {
        if id in result {
          duplicates := duplicates + {id};
        }
        result := result[id := e];
      }
    }
    assert entries[..|entries|] == entries;
    if duplicates == {} {
      return Ok(result);
    }
    ghost var d :| d in duplicates;
    assert Repeated(entries, d);
    return Err(duplicates);
  }
}
