/** What happens inside the commit guard: base version, worker call, new record version, reply. */
module CommitRoute {
  import opened Wrappers
  import opened Text
  import opened BulkUris
  import opened Records
  import opened RecordIds
  import opened VersionStore
  import opened EntityKinds

  /** What the session's metadata says about loading, in any letter case. */
  predicate LoadIsComplete(loadCompleted: Option<string>) {
    loadCompleted.Some? && LowerText(loadCompleted.value) == "true"
  }

  /** Exactly the four letters of "true", each in either case. */
  lemma CompleteMeansTrue(t: string)
    ensures LoadIsComplete(Some(t)) <==>
            |t| == 4 && t[0] in "tT" && t[1] in "rR" && t[2] in "uU" && t[3] in "eE"
  {
    if |t| == 4 { assert LowerText(t) == [Lower(t[0]), Lower(t[1]), Lower(t[2]), Lower(t[3])]; }
  }

  /** The flag by its name. */
  lemma FlagIsCleared(rest: Data, flag: Json, loadCompleted: Option<string>)
    requires "IsExtendedLoad" !in rest
    ensures MarkLoaded(rest["IsExtendedLoad" := flag], loadCompleted)
            == rest["IsExtendedLoad" := if LoadIsComplete(loadCompleted) then Bool(false) else flag]
    ensures MarkLoaded(rest, loadCompleted) == rest
  {
  }

  /** The extended-load flag is cleared when present and the session says loading is complete. */
  function MarkLoaded(data: Data, loadCompleted: Option<string>): Data {
    if EXTENDED_LOAD in data && LoadIsComplete(loadCompleted)
    then data[EXTENDED_LOAD := Bool(false)] else data
  }

  lemma MarkLoadedKeeps(data: Data, loadCompleted: Option<string>)
    ensures var d := MarkLoaded(data, loadCompleted);
      && (forall k | k != EXTENDED_LOAD :: Get(d, k) == Get(data, k))
      && (forall kind, atLeast, id ::
            CanSetBulkUri(d, kind, atLeast, id) <==> CanSetBulkUri(data, kind, atLeast, id))
  {
    var d := MarkLoaded(data, loadCompleted);
    assert Get(d, EXTENSION) == Get(data, EXTENSION) && Get(d, DATASETS) == Get(data, DATASETS);
  }

  /** The data of the version a commit publishes on top of `base`. */
  function CommitData(base: Data, kind: string, atLeast: VersionOrder, loadCompleted: Option<string>,
                      bulkId: string): Data
    requires CanSetBulkUri(MarkLoaded(base, loadCompleted), kind, atLeast, bulkId)
  {
    WithBulkUri(MarkLoaded(base, loadCompleted), kind, atLeast, bulkId)
  }

  /**
   The published data carries exactly the identifier of the worker under storage V1, and differs from
   the base only in the URI, one appended dataset entry where the kind lists them, and the flag.
   */
  lemma CommitPublishesWorkerId(base: Data, kind: string, atLeast: VersionOrder, loadCompleted: Option<string>,
                                bulkId: string)
    requires CanSetBulkUri(base, kind, atLeast, bulkId) && Canonical(bulkId)
    ensures CanSetBulkUri(MarkLoaded(base, loadCompleted), kind, atLeast, bulkId)
    ensures var d := CommitData(base, kind, atLeast, loadCompleted, bulkId);
      && GetBulkUri(d) == Ok(BulkUri(bulkId, V1))
      && d - {EXTENSION, DATASETS, EXTENDED_LOAD} == base - {EXTENSION, DATASETS, EXTENDED_LOAD}
      && (EXTENDED_LOAD in d <==> EXTENDED_LOAD in base)
      && (EXTENDED_LOAD in base ==>
            d[EXTENDED_LOAD] == if LoadIsComplete(loadCompleted) then Bool(false) else base[EXTENDED_LOAD])
      && HasUriPath(d)
      && ExtensionOf(d) - {WDMS} == ExtensionOf(base) - {WDMS}
      && WdmsOf(d) == WdmsOf(base)[BULK_URI := Str("urn:wdms-1:uuid:" + bulkId)]
      && (if ListsDatasets(kind, atLeast).value
          then HasDatasetList(d)
               && DatasetsOf(d) == DatasetsOf(base) + [Str("urn://wdms-1/uuid:" + bulkId)]
          else d - {EXTENSION, EXTENDED_LOAD} == base - {EXTENSION, EXTENDED_LOAD})
  {
    var m := MarkLoaded(base, loadCompleted);
    MarkLoadedKeeps(base, loadCompleted);
    WrittenUriReadsBack(m, kind, atLeast, bulkId);
    SameRoots(m, base);
    OnlyTheFlagMoved(CommitData(base, kind, atLeast, loadCompleted, bulkId), base, loadCompleted);
  }

  /** A record that differs from the marked base only in some keys differs from the base in those and the flag. */
  lemma OnlyTheFlagMoved(d: Data, base: Data, loadCompleted: Option<string>)
    requires d - {EXTENSION, DATASETS} == MarkLoaded(base, loadCompleted) - {EXTENSION, DATASETS}
    ensures d - {EXTENSION, DATASETS, EXTENDED_LOAD} == base - {EXTENSION, DATASETS, EXTENDED_LOAD}
    ensures EXTENDED_LOAD in d <==> EXTENDED_LOAD in base
    ensures EXTENDED_LOAD in base ==>
              d[EXTENDED_LOAD] == if LoadIsComplete(loadCompleted) then Bool(false) else base[EXTENDED_LOAD]
    ensures d - {EXTENSION} == MarkLoaded(base, loadCompleted) - {EXTENSION} ==>
              d - {EXTENSION, EXTENDED_LOAD} == base - {EXTENSION, EXTENDED_LOAD}
  {
    var m := MarkLoaded(base, loadCompleted);
    assert forall k | k !in {EXTENSION, DATASETS} :: k in d - {EXTENSION, DATASETS} <==> k in d;
    assert forall k | k !in {EXTENSION, DATASETS} :: k in m - {EXTENSION, DATASETS} <==> k in m;
    assert EXTENDED_LOAD in d ==> d[EXTENDED_LOAD] == (d - {EXTENSION, DATASETS})[EXTENDED_LOAD];
    assert d - {EXTENSION, DATASETS, EXTENDED_LOAD} == (d - {EXTENSION, DATASETS}) - {EXTENDED_LOAD};
    assert base - {EXTENSION, DATASETS, EXTENDED_LOAD} == (m - {EXTENSION, DATASETS}) - {EXTENDED_LOAD};
    assert d - {EXTENSION, EXTENDED_LOAD} == (d - {EXTENSION}) - {EXTENDED_LOAD};
    assert base - {EXTENSION, EXTENDED_LOAD} == (m - {EXTENSION}) - {EXTENDED_LOAD};
  }

  lemma SameRoots(m: Data, base: Data)
    requires Get(m, EXTENSION) == Get(base, EXTENSION) && Get(m, DATASETS) == Get(base, DATASETS)
    ensures HasUriPath(m) <==> HasUriPath(base)
    ensures HasUriPath(base) ==> ExtensionOf(m) == ExtensionOf(base) && WdmsOf(m) == WdmsOf(base)
    ensures HasDatasetList(m) <==> HasDatasetList(base)
    ensures HasDatasetList(base) ==> DatasetsOf(m) == DatasetsOf(base)
  {
  }

  /** What a commit on top of `base` stores. */
  function NewVersion(base: Stored, loadCompleted: Option<string>, worker: string, atLeast: VersionOrder,
                      version: nat): Stored
    requires CanSetBulkUri(base.data, base.kind, atLeast, worker)
  {
    MarkLoadedKeeps(base.data, loadCompleted);
    Stored(base.id, base.kind, version, CommitData(base.data, base.kind, atLeast, loadCompleted, worker))
  }

  datatype CommitResult =
    | Published(version: nat)
    | NotPublished
    | PublishedButUnreadable   // the new version exists, the reply could not be parsed

  /** Writes the worker's identifier into a copy of `base` and stores it as a new version. */
  method PublishOn(store: RecordBlobStorage, partition: string, base: Stored, loadCompleted: Option<string>,
                   bulkId: string, atLeast: VersionOrder, newVersion: nat)
    returns (r: CommitResult)
    requires store.Valid() && base.id in store.ids && HasNoTag(partition)
    requires newVersion > 0 && Slot(partition, base.id, newVersion) !in store.content
    modifies store`blobs, store`content
    ensures store.Valid()
    ensures r.NotPublished? <==> !CanSetBulkUri(base.data, base.kind, atLeast, bulkId)
    ensures r.NotPublished? ==> store.content == old(store.content)
    ensures r.Published? ==> r.version == newVersion
    ensures !r.NotPublished? ==> (r.Published? <==> IsRecordId(base.id))
    ensures !r.NotPublished? ==>
      store.content == old(store.content)[Slot(partition, base.id, newVersion) :=
        NewVersion(base, loadCompleted, bulkId, atLeast, newVersion)]
  {
    MarkLoadedKeeps(base.data, loadCompleted);
    var rec := new Record(Some(base.id), base.kind, Some(base.version), MarkLoaded(base.data, loadCompleted));
    var error := rec.SetBulkUri(bulkId, atLeast);
    if error.Some? { return NotPublished; }
    var reply := store.CreateRecord(rec, partition, "", newVersion);
    ReplyYieldsVersion(base.id, newVersion);
    var parsed := SplitIdVersion(reply.value);
    r := if parsed.1.None? then PublishedButUnreadable else Published(parsed.1.value);
  }

  // ---------- generated identifiers ----------

  predicate IsName(s: string) { s != "" && forall i | 0 <= i < |s| :: IsNameChar(s[i]) }

  /** An identifier made for a new record fits the pattern exactly when the kind's first and third segments allow it. */
  lemma GeneratedIdFits(kind: string, unique: string)
    requires HexWord(unique) && NewId(kind, unique).Some?
    ensures IsRecordId(NewId(kind, unique).value) <==> IsName(Split(kind, ':')[0]) && Split(kind, ':')[2] != ""
  {
    var parts := Split(kind, ':');
    var id := NewId(kind, unique).value;
    forall i | 0 <= i < |unique| ensures unique[i] != ':' && IsUniqueChar(unique[i]) { assert IsHex(unique[i]); }
    SplitNone(unique, ':');
    SplitTwo(parts[0], parts[2], unique);
    assert Split(id, ':') == [parts[0], parts[2], unique];
    assert Split(id, ':')[2..] == [unique];
  }

  // ---------- the commit sequence ----------

  /** The body raises before publishing exactly when this fails. */
  predicate CanPublish(base: Option<Stored>, entity: Option<string>, update: bool, worker: Option<string>,
                       atLeast: VersionOrder) {
    && base.Some?
    && ServesKind(entity, base.value.kind)
    && (update ==> GetBulkUri(base.value.data).Ok?)
    && worker.Some?
    && CanSetBulkUri(base.value.data, base.value.kind, atLeast, worker.value)
  }

  /** The base of a commit: the version the session was opened on, or the latest one if that is zero. */
  method FetchBase(store: RecordBlobStorage, partition: string, recordId: string, fromVersion: nat)
    returns (base: Option<Stored>)
    requires store.Valid() && recordId in store.ids && HasNoTag(partition)
    ensures IsRequested(base, store.content, store.VersionsOf(recordId, partition), partition, recordId, fromVersion)
  {
    base := store.GetRecordVersion(recordId, Some(fromVersion), partition);
  }

  /** A reader of the new version finds the worker's identifier. */
  lemma NewVersionReadsBack(base: Stored, loadCompleted: Option<string>, worker: string, atLeast: VersionOrder,
                            version: nat)
    requires CanSetBulkUri(base.data, base.kind, atLeast, worker) && Canonical(worker)
    ensures var n := NewVersion(base, loadCompleted, worker, atLeast, version);
      && GetBulkUri(n.data) == Ok(BulkUri(worker, V1))
      && n.id == base.id && n.kind == base.kind && n.version == version
  {
    CommitPublishesWorkerId(base.data, base.kind, atLeast, loadCompleted, worker);
  }

  /**
   The commit sequence.  `worker` is the identifier returned by the bulk worker, or nothing if it raised;
   `newVersion` is the version number the storage draws.
   */
  method Commit(store: RecordBlobStorage, partition: string, recordId: string, fromVersion: nat, update: bool,
                entity: Option<string>, loadCompleted: Option<string>, worker: Option<string>, atLeast: VersionOrder,
                newVersion: nat)
    returns (r: CommitResult, ghost base: Option<Stored>)
    requires store.Valid() && recordId in store.ids && HasNoTag(partition)
    requires newVersion > 0 && Slot(partition, recordId, newVersion) !in store.content
    modifies store`blobs, store`content
    ensures store.Valid()
    ensures IsRequested(base, old(store.content), old(store.VersionsOf(recordId, partition)),
                        partition, recordId, fromVersion)
    ensures r.NotPublished? <==> !CanPublish(base, entity, update, worker, atLeast)
    ensures r.NotPublished? <==>
      || base.None? || !ServesKind(entity, base.value.kind) || (update && GetBulkUri(base.value.data).Err?)
      || worker.None? || !CanSetBulkUri(base.value.data, base.value.kind, atLeast, worker.value)
    ensures r.NotPublished? ==> store.content == old(store.content)
    ensures r.Published? ==> r.version == newVersion
    ensures !r.NotPublished? ==> (r.Published? <==> IsRecordId(recordId))
    ensures !r.NotPublished? ==>
      store.content == old(store.content)[Slot(partition, recordId, newVersion) :=
        NewVersion(base.value, loadCompleted, worker.value, atLeast, newVersion)]
  {
    var found := FetchBase(store, partition, recordId, fromVersion);
    base := found;
    if found.None? { r := NotPublished; return; }
    var origin := found.value;
    if !ServesKind(entity, origin.kind) { r := NotPublished; return; }
    if update && GetBulkUri(origin.data).Err? { r := NotPublished; return; }
    if worker.None? { r := NotPublished; return; }
    r := PublishOn(store, partition, origin, loadCompleted, worker.value, atLeast, newVersion);
  }
}
