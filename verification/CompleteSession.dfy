/** Completing a session: the guard around the commit or abandon sequence, when nobody else touches the session. */
module CompleteSession {
  import opened Wrappers
  import opened Records
  import opened RecordIds
  import opened VersionStore
  import opened CommitRoute
  import Protocol = SessionProtocol
  import Storage = SessionsStorage

  datatype Reply =
    | EntryRefused
    | BodyFailed
    | Completed(version: Option<nat>)
    | ReplyFailed   // committed and published, but the version could not be told

  /** The session is stored in this state since `now`, and every other session as before. */
  ghost predicate Rewritten(before: map<Protocol.Key, Protocol.Blob>, after: map<Protocol.Key, Protocol.Blob>,
                            name: Protocol.Key, state: Protocol.SessionState, now: Protocol.Time) {
    && name in before && name in after && after == before[name := after[name]]
    && after[name].state == state && after[name].updated == now && after[name].terms == before[name].terms
  }

  /** The guard can be entered. */
  predicate CanEnter(blobs: map<Protocol.Key, Protocol.Blob>, name: Protocol.Key, commit: bool, now: Protocol.Time) {
    name in blobs && Protocol.MatrixAllows(blobs[name].state, Protocol.PendingState(commit), now - blobs[name].updated)
  }

  /**
   The commit sequence.  Refused entry changes nothing.  A failing body leaves the session open and publishes
   nothing.  Otherwise the session is committed and exactly one version is published, even when the reply then
   cannot be read.
   */
  method CommitSession(client: Storage.BlobContainer, store: RecordBlobStorage, partition: string, recordId: string,
                       sessionId: string, entity: Option<string>, worker: Option<string>, atLeast: VersionOrder,
                       newVersion: nat, entered: Protocol.Time, left: Protocol.Time)
    returns (r: Reply, ghost base: Option<Stored>)
    requires store.Valid() && recordId in store.ids && HasNoTag(partition)
    requires newVersion > 0 && Slot(partition, recordId, newVersion) !in store.content
    modifies client, store`blobs, store`content
    ensures store.Valid()
    ensures var name := Storage.SessionName(recordId, sessionId);
      && (r.EntryRefused? <==> !CanEnter(old(client.blobs), name, true, entered))
      && (r.EntryRefused? ==> client.blobs == old(client.blobs))
      && (r.BodyFailed? ==> Rewritten(old(client.blobs), client.blobs, name, Protocol.Open, left))
      && (r.Completed? || r.ReplyFailed? ==>
            Rewritten(old(client.blobs), client.blobs, name, Protocol.Committed, left))
    ensures r.EntryRefused? || r.BodyFailed? ==> store.content == old(store.content)
    // base version, mode and note are those the session was created with
    ensures !r.EntryRefused? ==>
      var terms := old(client.blobs)[Storage.SessionName(recordId, sessionId)].terms;
      && IsRequested(base, old(store.content), old(store.VersionsOf(recordId, partition)), partition, recordId,
                     terms.fromVersion)
      && (r.BodyFailed? <==> !CanPublish(base, entity, terms.update, worker, atLeast))
      && (!r.BodyFailed? ==>
            && r == (if IsRecordId(recordId) then Completed(Some(newVersion)) else ReplyFailed)
            && store.content == old(store.content)[Slot(partition, recordId, newVersion) :=
                 NewVersion(base.value, terms.loadCompleted, worker.value, atLeast, newVersion)])
  {
    base := None;
    var guard := new Storage.CompletionGuard(client, Storage.SessionName(recordId, sessionId), true);
    guard.EnterGuard(entered);
    if !guard.isArmed { r := EntryRefused; return; }
    var terms := guard.session.value.terms;
    var published;
    published, base := Commit(store, partition, recordId, terms.fromVersion, terms.update, entity, terms.loadCompleted,
                              worker, atLeast, newVersion);
    guard.ExitGuard(published.NotPublished?, left);
    r := match published
      case NotPublished => BodyFailed
      case Published(version) => Completed(Some(version))
      case PublishedButUnreadable => ReplyFailed;
  }

  /** The abandon sequence, whose body does nothing. */
  method AbandonSession(client: Storage.BlobContainer, recordId: string, sessionId: string,
                        entered: Protocol.Time, left: Protocol.Time)
    returns (r: Reply)
    modifies client
    ensures var name := Storage.SessionName(recordId, sessionId);
      if CanEnter(old(client.blobs), name, false, entered)
      then r == Completed(None) && Rewritten(old(client.blobs), client.blobs, name, Protocol.Abandoned, left)
      else r == EntryRefused && client.blobs == old(client.blobs)
  {
    var guard := new Storage.CompletionGuard(client, Storage.SessionName(recordId, sessionId), false);
    guard.EnterGuard(entered);
    if !guard.isArmed { return EntryRefused; }
    guard.ExitGuard(false, left);
    r := Completed(None);
  }
}
