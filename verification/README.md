# Verified model of the Wellbore DDMS

This project models, in Dafny, the parts of the Wellbore Domain Data Management Service whose correctness
depends on several pieces working together, and proves what they guarantee.

- **Bulk-write sessions** (`SessionProtocol`, `SessionProofs`, `SessionRuns`, `SessionsStorage`). A session is one
  blob holding a state and an update time, stored under an etag. Any number of requests complete sessions
  concurrently: each reads metadata and content in two separate calls, checks the state matrix, and rewrites the
  blob with a conditional upload (the If-Match rule of section 13.1.1 of RFC 9110). The model is a transition
  system with one store, a clock, any number of completion guards, crashes, uploads that land after their sender
  died, and deletions; the theorems hold for every sequence of steps. The storage client and the guard are also
  written as classes whose methods are proved to perform the steps of that system.
- **Record versions and bulk URIs** (`BulkUris`, `Records`, `RecordIds`, `VersionStore`, `EntityKinds`,
  `CommitRoute`, `CompleteSession`, `Provenance`). The URI codec, including the texts Python's `uuid.UUID` accepts;
  reading and writing the URI inside a record; partial reads; the version store over blobs; what a commit publishes,
  alone and inside the session guard; and the check that keeps clients from inventing URIs, over every interleaving of
  requests.
- **Column labels and WellLog consistency** (`ColumnLabels`, `WellLogs`). The label pattern, both groupings of
  columns, column selection with slices, and the consistency checks built on them.
- **Schema cache and row filters** (`SchemaCache`, `BulkFilters`).

`Wrappers` holds the option type and `Text` the string operations the others use. Run `dafny verify dfyconfig.toml` to
verify the whole project.

## What turned out differently from expectation

- The two reads of a session are started together, so the content may be read first. That alone does no harm, but if
  an upload lands between the two reads, the conditional upload that follows is accepted on stale content
  (`SessionProofs.StaleUploadWasOvertaken` says exactly when). Such a torn upload breaks mutual exclusion with no idle
  time at all (`SessionRuns.TornReadBreaksExclusion`) and lets a committed session be entered and published again
  (`SessionRuns.TornReadReentersCommitted`). The theorems hold in every run for every session on which none landed.
- A superseded guard is not the only one that can reopen a closed session. A guard that took a session over and was
  never superseded can do it too (`SessionRuns.SupersedingGuardReopensCommitted`). What holds in every run is that
  a closed session is rewritten exactly by an accepted forced rollback, and only after a takeover or a torn upload has
  landed on it (`SessionProofs.ClosedIsFinal`).
- A V1 URI built from an identifier that contains a colon can never be read back (`BulkUris.V1ReadsBack`). The URN of
  any UUID is such an identifier, and the constructor accepts it (`BulkUris.UrnIdentifierIsLost`).
- Committing a session of a record whose id does not have the documented pattern publishes the new version and then
  fails on the reply (`CompleteSession.CommitSession`, `RecordIds.UnreadableReplyExists`). The storage itself generates
  such ids for kinds whose first segment is not a name (`CommitRoute.GeneratedIdFits`).
- The latest version is the lexicographically last name, so `9` wins over `10` (`VersionStore.NineSortsAfterTen`); the
  exact condition is `VersionStore.LastIsGreatest`. Versions drawn from ULIDs between spring 1996 and the
  end of 2231 never reach the bad case (`VersionStore.RecentVersionsFollow`).
- The partial read of a record differs from the full read when a level on the way to the URI holds something odd, such
  as `false` (`Records.PartialReadDiffers`; `Records.PartialReadAgrees` gives the exact condition).
- The entity-kind check rejects nothing for entities that are not in its table (`EntityKinds.CheckedIffNamed`). Two
  entities with routes are not: PPFG datasets, which the table spells differently, and WellLog acquisitions, which it
  does not have (`EntityKinds.UncheckedRoutes`).
- A schema answered for one kind but naming another, well-known one is from then on served for that one
  (`SchemaCache.ForeignSchemaIsServed`). `SchemaCache.TransparentIffNamesAgree` says exactly when this does no harm.
- A slice selection with integer bounds that matches no column selects nothing and is not reported as missing
  (`ColumnLabels.EmptySliceIsUnreported`), although the documentation of the second result suggests it would be.
  `ColumnLabels.MissingExactly` says what is reported.
- The two groupings disagree exactly when some label is empty (`ColumnLabels.GroupingsAgree`,
  `ColumnLabels.EmptyLabelIsDropped`).

## Assumptions

- Etags are never reused, session ids are fresh, and the versions drawn for records are fresh and not zero.
- The clock is global and monotone.
- Publishing a record version either publishes and returns, or raises without publishing. Python `assert`s are failing
  steps. A failing network call of a guard is a crash, whose request may still land.
- The worker returns an identifier or raises; where it matters that the identifier is a canonical UUID, it is said.
- The folder hash yields 32 hexadecimal digits and does not collide on the record ids in use; partition names do not
  contain `_r_`.
- Labels and filters contain no newline. Word characters, digits, letters and spaces are the ASCII ones.
- Natural sorting is some fixed listing of a set without repetition. Comparison of version texts is a parameter.

## Model

| member | source | states |
|---|---|---|
| `SessionProtocol.CheckUpdate` | app/bulk_persistence/sessions_storage.py:340-384 | The checks allow an update exactly when it is forced or the documented matrix has an allowed cell, the timeout cells from five minutes of idleness on |
| `SessionProtocol.MatrixIsDocumented` | app/bulk_persistence/sessions_storage.py:340-349 | The moves the matrix allows, cell by cell, the timeout cells exactly from 5 * 60 seconds of idleness on |
| `SessionProtocol.RefusalsAreExact` | app/bulk_persistence/sessions_storage.py:352-377 | Which refusal is given: already closed, busy for less than 5 * 60 seconds, not committable, or a failing assertion, each exactly when |
| `SessionProofs.RunsAreRecorded` | app/bulk_persistence/sessions_storage.py:190-228 | In every run whatever, in either order of the two reads: an etag or content held by a guard is no newer than what is stored, equal etags mean equal content, and every decision was allowed for the content seen |
| `SessionProofs.TermsNeverChange` | app/bulk_persistence/sessions_storage.py:221-225 | In every run, whatever happens after a session is stored, it is found with the base version, mode and note it was created with |
| `SessionProofs.CasIsExact` | app/bulk_persistence/sessions_storage.py:196-219 | When a conditional upload is accepted, the content it was decided on is what is stored at that moment, exactly unless the content is older than the etag presented |
| `SessionProofs.StaleUploadWasOvertaken` | app/bulk_persistence/sessions_storage.py:216-219 | In every run whatever, an accepted upload was decided on something other than what is stored if and only if its guard read the content first and the session was rewritten before that guard read the metadata |
| `SessionProofs.MetaFirstIsUntorn` | app/bulk_persistence/sessions_storage.py:216-219 | If every metadata read happens no later than its content read, no torn upload is ever accepted for any session |
| `SessionProofs.RunsAreCoherent` | app/bulk_persistence/sessions_storage.py:366-377 | In every run, the takeovers of a session without torn uploads have each cost 300 seconds of its life, by its stored update time and by the clock |
| `SessionProofs.MatrixConformance` | app/bulk_persistence/sessions_storage.py:340-390 | Over every run, an unforced upload that lands and is not torn moves the state stored at that moment along an allowed matrix cell, measured with the times actually stored; abandoning never becomes committing |
| `SessionProofs.TakeoverSpacing` | app/bulk_persistence/sessions_storage.py:366-377 | Over every run, when a step other than a torn upload replaces one pending state by another, the update times are at least 5 * 60 * 1000000 microseconds apart and the step is a takeover |
| `SessionProofs.RunsAreBounded` | app/bulk_persistence/sessions_storage.py:286-311 | In every run, for each session without torn uploads: published versions plus guards that may still publish never exceed takeovers plus one, or plus none while it is open |
| `SessionProofs.PublicationsBoundedByTakeovers` | app/routers/bulk/bulk_routes.py:300-336 | Over all runs, takeovers and crashes included, a session without torn uploads publishes at most one version more than its takeovers, at most as many while open, and takeovers cost five minutes of session life each |
| `SessionProofs.RunsAreExclusive` | app/bulk_persistence/sessions_storage.py:276-311 | In every run, on a session without takeovers and torn uploads, a guard that holds it is alone, the blob is as that guard left it, and the number of publications is determined by the stored state |
| `SessionProofs.MutualExclusion` | app/bulk_persistence/sessions_storage.py:286-311 | On a session without takeovers and torn uploads at most one live guard is armed, and the stored state is its pending state |
| `SessionProofs.PublishOnce` | app/routers/bulk/bulk_routes.py:300-365 | Without takeovers and torn uploads a session publishes at most one version: none if open, abandoning or abandoned, exactly one if committed |
| `SessionProofs.CommittedHasPublished` | app/routers/bulk/bulk_routes.py:300-336 | In every run whatever, torn reads and takeovers included, a committed session has published at least one version |
| `SessionProofs.ClosedIsFinal` | app/bulk_persistence/sessions_storage.py:298-357 | A closed session disappears exactly by deletion and, torn uploads apart, is rewritten exactly by an accepted forced rollback, which needs an earlier takeover or torn upload on that session |
| `SessionProofs.UnforcedDeleteRemovesClosed` | app/bulk_persistence/sessions_storage.py:261-274 | Deletion without force, checked and executed in two steps, only ever removes a closed session if neither a takeover nor a torn upload happened |
| `SessionProofs.LeavingAlwaysLands` | app/bulk_persistence/sessions_storage.py:294-311 | Without takeover, torn upload or deletion, the assertions on leaving never fail and the closing upload is always accepted |
| `SessionRuns.UpdateAlone` | app/bulk_persistence/sessions_storage.py:335-390 | From any reachable state, an undisturbed update that the checks allow lands, with exactly the new state, etag and time |
| `SessionRuns.CreationAlone` | app/bulk_persistence/sessions_storage.py:240-250 | In every run, a created session is open, stamped with the current time, carries exactly the terms asked for and has published nothing |
| `SessionRuns.DeletionAlone` | app/bulk_persistence/sessions_storage.py:261-274 | An undisturbed deletion removes the session exactly when it exists and is closed or force is used |
| `SessionRuns.CompletionAlone` | app/routers/bulk/bulk_routes.py:298-365 | From any reachable world, an undisturbed guard that may enter closes the session, or reopens it if its body fails, publishes exactly once if it commits, and changes no other session |
| `SessionRuns.NeverStuck` | app/bulk_persistence/sessions_storage.py:366-384 | From every reachable world, a session that is not closed can be abandoned after five minutes and an undisturbed completion, and committed likewise unless it is being abandoned |
| `SessionRuns.SupersedingGuardReopensCommitted` | app/bulk_persistence/sessions_storage.py:302-310 | A concrete run in which a never superseded guard reopens a committed session |
| `SessionRuns.OneTakeoverTwoPublications` | app/routers/bulk/bulk_routes.py:300-336 | The bound on publications is reached: one takeover, two published versions |
| `SessionRuns.TornStartReaches` | app/bulk_persistence/sessions_storage.py:216-219 | The order of the reads alone does no harm: a run that reads the content first and has no torn upload |
| `SessionRuns.TornReadBreaksExclusion` | app/bulk_persistence/sessions_storage.py:216-219 | A concrete run in which an upload lands between the two reads of a guard, and two guards are armed at the same instant |
| `SessionRuns.TornReadReentersCommitted` | app/bulk_persistence/sessions_storage.py:216-219 | A concrete run in which such an upload enters a committed session again, so that it publishes twice without any takeover |
| `SessionsStorage.SessionNamesAreDistinct` | app/bulk_persistence/sessions_storage.py:187-188 | Two sessions share a blob name exactly when record and session id are the same, the ids having one length |
| `SessionsStorage.SessionsAreListed` | app/bulk_persistence/sessions_storage.py:256-259 | A listing by record finds exactly the sessions of that record, and the last segment of each name is the session id |
| `SessionsStorage.BlobContainer.Upload` | app/bulk_persistence/sessions_storage.py:196-209 | The upload is refused exactly when an etag is given that is not the stored one; otherwise only that blob changes, under a new etag |
| `SessionsStorage.BlobContainer.CreateSession` | app/bulk_persistence/sessions_storage.py:240-250 | A created session is stored as open with the creation time and its terms, and nothing else changes |
| `SessionsStorage.BlobContainer.DeleteSession` | app/bulk_persistence/sessions_storage.py:261-274 | Removes the session exactly when it exists and is closed or removal is forced; otherwise nothing changes |
| `SessionsStorage.CompletionGuard.constructor` | app/bulk_persistence/sessions_storage.py:277-284 | A new guard is not armed, holds no session, and is about to enter |
| `SessionsStorage.CompletionGuard.ReadMetadata` | app/bulk_persistence/sessions_storage.py:216-228 | On the guard's own variables, performs the metadata step of the protocol |
| `SessionsStorage.CompletionGuard.ReadContent` | app/bulk_persistence/sessions_storage.py:216-228 | On the guard's own variables, performs the content step of the protocol |
| `SessionsStorage.CompletionGuard.CheckState` | app/bulk_persistence/sessions_storage.py:352-384 | The update goes on to the upload exactly when it is forced or the matrix allows the move from the state seen; this is the check step of the protocol |
| `SessionsStorage.CompletionGuard.StampTime` | app/bulk_persistence/sessions_storage.py:192-195 | A move the matrix allowed when it was checked is still allowed for the later time that is stored with it |
| `SessionsStorage.CompletionGuard.UploadState` | app/bulk_persistence/sessions_storage.py:197-209 | Performs the landing step of the protocol on guard and store; accepted exactly when the etag read is still stored, and then the session the guard keeps is the one stored |
| `SessionsStorage.CompletionGuard.GetSession` | app/bulk_persistence/sessions_storage.py:211-228 | With nobody interfering, both reads hold exactly what is stored, or the session is not found |
| `SessionsStorage.CompletionGuard.StoreSession` | app/bulk_persistence/sessions_storage.py:190-209 | Accepted exactly when the etag held is the stored one; then only that session changes, with the new state and time; otherwise nothing changes |
| `SessionsStorage.CompletionGuard.UpdateState` | app/bulk_persistence/sessions_storage.py:335-390 | With nobody interfering, the update lands exactly when forced or allowed by the matrix; otherwise nothing is written and the refusal is the one of the checks |
| `SessionsStorage.CompletionGuard.EnterGuard` | app/bulk_persistence/sessions_storage.py:286-292 | The guard is armed exactly when the matrix allows the pending state, which is then the only thing written and the session the guard keeps |
| `SessionsStorage.CompletionGuard.ExitGuard` | app/bulk_persistence/sessions_storage.py:294-311 | An unarmed guard does nothing; after an exception the session is reopened whatever is stored; after success it is closed exactly when still pending as this guard left it; otherwise the guard stays armed and nothing is written |
| `BulkUris.ParseUuid` | app/bulk_persistence/bulk_uri.py:42-44 | Whatever text is accepted as a UUID, its printed form is 32 lower-case hexadecimal digits with hyphens; the rows below say which text denotes which |
| `BulkUris.AnyCaseReads` | app/bulk_persistence/bulk_uri.py:125-128 | The printed form in any letter case denotes the UUID of its lower-case form |
| `BulkUris.SameUuidIffSameLetters` | app/bulk_persistence/bulk_uri.py:125-128 | Two such texts denote the same UUID exactly when they differ in letter case only |
| `BulkUris.DigitsRead` | app/bulk_persistence/bulk_uri.py:125-128 | Thirty-two hexadecimal digits in either case, with hyphens wherever they are, denote the UUID of those digits |
| `BulkUris.HyphenateIsInjective` | app/bulk_persistence/bulk_uri.py:125-128 | Different digits are different UUIDs |
| `BulkUris.HyphensAt` | app/bulk_persistence/bulk_uri.py:102-102 | The printed form has its hyphens after 8, 12, 16 and 20 digits and nothing else between them |
| `BulkUris.BracesErased` | app/bulk_persistence/bulk_uri.py:125-128 | Braces around a text change nothing |
| `BulkUris.WrongLengthRejected` | app/bulk_persistence/bulk_uri.py:125-128 | Texts with other than 32 characters left are rejected |
| `BulkUris.LiteralExactly` | app/bulk_persistence/bulk_uri.py:125-128 | Of 32 characters exactly those are accepted that are an optional sign and prefix and digits with single underscores, and these digits are what is read |
| `BulkUris.BasePrefixReads` | app/bulk_persistence/bulk_uri.py:125-128 | A `0x` prefix counts among the 32 characters and leaves two zeros |
| `BulkUris.SignReads` | app/bulk_persistence/bulk_uri.py:125-128 | A plus sign counts among the 32 characters and leaves one zero |
| `BulkUris.CanonicalReadsItself` | app/bulk_persistence/bulk_uri.py:125-128 | A canonical UUID text denotes itself |
| `BulkUris.UrnPrefixErased` | app/bulk_persistence/bulk_uri.py:125-128 | Prefixing `urn:uuid:` changes nothing about what a colon-free text denotes |
| `BulkUris.V1ReadsBack` | app/bulk_persistence/bulk_uri.py:93-128 | A printed V1 URI decodes as V1 with the canonical form of its identifier exactly when the identifier has no colon, and is rejected otherwise |
| `BulkUris.V0ReadsBack` | app/bulk_persistence/bulk_uri.py:93-128 | For every accepted identifier, a printed V0 URI decodes as V0 with its canonical form and never as V1 |
| `BulkUris.UrnIdentifierIsLost` | app/bulk_persistence/bulk_uri.py:93-128 | The URN of any UUID is accepted as a V1 identifier, and the URI printed for it is rejected; as a V0 identifier it reads back |
| `BulkUris.DecodeUndoesEncode` | app/bulk_persistence/bulk_uri.py:54-128 | On canonical identifiers decoding undoes encoding, storage version included |
| `BulkUris.PrintedForms` | app/bulk_persistence/bulk_uri.py:93-113 | The four printed forms spelled out, and what the first two are read as |
| `BulkUris.DatasetFormIsInjective` | app/bulk_persistence/bulk_uri.py:104-113 | A dataset entry determines storage version and identifier, for all identifiers |
| `BulkUris.EncodeIsInjective` | app/bulk_persistence/bulk_uri.py:93-102 | On canonical identifiers two URIs print alike exactly when they are equal |
| `BulkUris.DecodeNormalForm` | app/bulk_persistence/bulk_uri.py:54-69 | Everything decoded from a non-empty text is valid, canonical, and survives being printed and decoded again |
| `Records.UriPath` | app/routers/bulk/bulk_routes_dependencies.py:37-53 | The URI is read from `ExtensionProperties`, `wdms`, `bulkURI` |
| `Records.UriIsWhatIsStored` | app/routers/bulk/bulk_routes_dependencies.py:37-53 | For every record: a valid URI, none, a value error or an attribute error is read exactly by what is found on that path |
| `Records.FalsyValues` | app/routers/bulk/bulk_routes_dependencies.py:42-45 | The values that count as absent |
| `Records.DatasetRule` | app/routers/bulk/bulk_routes_dependencies.py:15-71 | For each entity of the table and every version text, the kind lists datasets exactly if that version is at least the earliest one, spelled out; other entities list none |
| `Records.NoDatasetsOtherwise` | app/routers/bulk/bulk_routes_dependencies.py:67-69 | Kinds of any other shape list none |
| `Records.FreshRecordWritten` | app/routers/bulk/bulk_routes_dependencies.py:55-74 | A record without data after writing, spelled out with its URI and its one dataset entry |
| `Records.Record.SetBulkUri` | app/routers/bulk/bulk_routes_dependencies.py:55-63 | Succeeds exactly when the objects on the path are objects or falsy, the identifier is a UUID and the dataset list can be extended; then the data is the original with the URI put in place; other keys never change |
| `Records.Record.EnsureExtension` | app/routers/bulk/bulk_routes_dependencies.py:57-60 | Falsy levels on the way to the URI are reset to objects; a truthy non-object is an error that changes nothing |
| `Records.Record.AssignUri` | app/routers/bulk/bulk_routes_dependencies.py:62-62 | The URI is assigned inside `wdms`, created if missing; a `wdms` that is no object is an error that changes nothing |
| `Records.Record.AppendDataset` | app/routers/bulk/bulk_routes_dependencies.py:65-74 | One dataset entry is appended exactly for the kinds and versions that list them, `urn://wdms-1/uuid:` and the identifier for V1; no other key changes |
| `Records.WrittenUriReadsBack` | app/routers/bulk/bulk_routes_dependencies.py:37-74 | A written record reads back as V1 with exactly the canonical identifier, or is unreadable if that has a colon; everything but the URI `urn:wdms-1:uuid:..` and one appended dataset entry `urn://wdms-1/uuid:..` is unchanged at every level |
| `Records.ProjectAttributes` | app/clients/storage_service_blob_storage.py:141-162 | The loops over attributes and path tokens compute the projection of the data to the dotted paths, errors included |
| `Records.ProjectionExactly` | app/clients/storage_service_blob_storage.py:141-162 | A projection holds exactly the values found at the dotted paths asked for, each under its path |
| `Records.ProjectionFailsExactly` | app/clients/storage_service_blob_storage.py:148-157 | It fails exactly on an attribute outside the data or a path through something that is no object |
| `Records.Record.RestoreWdms` | app/routers/record_utils.py:78-84 | Popping the projected value and merging it in place, an object or a list of pairs, rebuilds the nested form, or fails with the error of the merge |
| `Records.MergedItems` | app/routers/record_utils.py:78-83 | What merging a value that is no list does: objects are taken over, empty texts change nothing, and the rest fails by its type |
| `Records.MergedPairs` | app/routers/record_utils.py:78-83 | A list is merged pair by pair, later ones winning; a text of two characters is a pair, other scalars fail by their type |
| `Records.PartialReadAgrees` | app/routers/record_utils.py:60-84 | Partial and full read give the same URI or the same error exactly for the records whose two levels are objects, absent or suitably empty, or hold a value on which both fail alike |
| `Records.PartialReadDiffers` | app/routers/record_utils.py:60-84 | A record the full read takes for one without a URI, and the partial read fails on |
| `RecordIds.RecordIdIsPattern` | app/model/osdu_record_id.py:11-11 | The computed test accepts exactly the texts that fit the identifier pattern |
| `RecordIds.SplitExactly` | app/model/osdu_record_id.py:8-32 | For every text not ending in a newline: identifier and version of the pattern with version if it fits, else the whole text if it fits the pattern without, else nothing |
| `RecordIds.NewlineOverlooked` | app/model/osdu_record_id.py:8-30 | One newline at the end changes no version, and stays part of an identifier without one |
| `RecordIds.IdentifierCharacters` | app/model/osdu_record_id.py:8-11 | The characters of the two character classes |
| `RecordIds.DocumentedIds` | app/model/osdu_record_id.py:18-26 | Two of the documented examples |
| `RecordIds.ReplyYieldsVersion` | app/model/osdu_record_id.py:8-32 | The reply `id:version` yields exactly that id and version if the id fits the pattern, and no version otherwise |
| `RecordIds.NoSegmentsNoVersion` | app/model/osdu_record_id.py:28-32 | For every identifier without a colon the reply yields neither identifier nor version |
| `RecordIds.UnreadableReplyExists` | app/model/osdu_record_id.py:23-30 | A concrete identifier whose reply cannot be read, for every version |
| `VersionStore.FolderSelects` | app/clients/storage_service_blob_storage.py:71-80 | A listing by folder prefix finds the versions of that record in that partition and nothing else |
| `VersionStore.PathIsInjective` | app/clients/storage_service_blob_storage.py:82-85 | Two versions share an object name exactly when partition, hash and version are equal |
| `VersionStore.VersionInPath` | app/clients/storage_service_blob_storage.py:82-85 | The object name spelled out; its last segment is the version |
| `VersionStore.LessIsNumeric` | app/clients/storage_service_blob_storage.py:80-80 | On equally many digits lexicographic and numeric order agree |
| `VersionStore.LaterPath` | app/clients/storage_service_blob_storage.py:80-87 | For v1 < v2 the object names sort alike exactly when v1 is no greater than the leading digits of v2, as many as v1 has |
| `VersionStore.LastIsGreatest` | app/clients/storage_service_blob_storage.py:80-87 | The version whose name comes last is the greatest exactly when the greatest one follows all others in that sense |
| `VersionStore.RecentVersionsFollow` | app/clients/storage_service_blob_storage.py:109-109 | Of two versions drawn from ULIDs between spring 1996 and the end of 2231 the greater one always follows the other, so its name sorts later |
| `VersionStore.NineSortsAfterTen` | app/clients/storage_service_blob_storage.py:80-87 | A pair of versions whose names sort the other way round |
| `VersionStore.RecordBlobStorage.constructor` | app/clients/storage_service_blob_storage.py:63-68 | A new storage holds no version of anything |
| `VersionStore.RecordBlobStorage.AllVersionObjects` | app/clients/storage_service_blob_storage.py:77-80 | The sorted names of exactly the versions of that record in that partition |
| `VersionStore.RecordBlobStorage.LatestRecord` | app/clients/storage_service_blob_storage.py:185-192 | A stored version, or none exactly when there is none; the numerically greatest exactly when that one follows all others |
| `VersionStore.RecordBlobStorage.GetRecordVersion` | app/clients/storage_service_blob_storage.py:133-140 | The version asked for, or not found; without a version, or for zero, the latest |
| `VersionStore.RecordBlobStorage.GetRecordAttributes` | app/clients/storage_service_blob_storage.py:125-164 | The same version with its data restricted to the attributes asked for, errors included |
| `VersionStore.RecordBlobStorage.FetchPartialUri` | app/routers/record_utils.py:65-84 | The URI read through the partial record is that of the stored version, or the same error, exactly when that version reads alike |
| `VersionStore.PutAllAdds` | app/clients/storage_service_blob_storage.py:110-117 | Storing a batch adds exactly its versions and disturbs none stored before |
| `VersionStore.NewIdParts` | app/clients/storage_service_blob_storage.py:92-95 | A new identifier is the first and third segments of the kind and the unique part; a kind of fewer than three segments is an error |
| `VersionStore.AssignIds` | app/clients/storage_service_blob_storage.py:106-109 | Every record of a batch gets its own or a new identifier and its version, or the batch fails exactly when some kind is too short |
| `VersionStore.RecordBlobStorage.CreateRecords` | app/clients/storage_service_blob_storage.py:97-123 | Exactly one new version per record appears, no existing one is disturbed, and the replies name id and version in order; if some record cannot get an identifier nothing is stored |
| `VersionStore.RecordBlobStorage.CreateRecord` | app/routers/bulk/utils.py:84-86 | For the batch of one record: exactly one new version, and the reply names its id and version |
| `VersionStore.RecordBlobStorage.DeleteRecord` | app/clients/storage_service_blob_storage.py:194-212 | All versions of that record in that partition disappear and no other |
| `CommitRoute.CommitPublishesWorkerId` | app/routers/bulk/bulk_routes.py:328-336 | The data a commit publishes reads back as V1 with exactly the worker's id and differs from the base only in the URI, one appended entry `urn://wdms-1/uuid:..` where the kind lists datasets, and the extended-load flag, cleared exactly when the session says so |
| `CommitRoute.CompleteMeansTrue` | app/routers/bulk/bulk_routes.py:328-331 | The session says so exactly with the four letters of `true`, each in either case |
| `CommitRoute.FlagIsCleared` | app/routers/bulk/bulk_routes.py:330-331 | The flag `IsExtendedLoad` is cleared if present, and never added |
| `EntityKinds.CheckedIffNamed` | app/routers/ddms_v3/ddms_v3_utils.py:15-40 | For every entity, the kind check rejects some well-formed kind exactly when the entity is in the table of names |
| `EntityKinds.ServedTypes` | app/routers/ddms_v3/ddms_v3_utils.py:15-40 | For each entity of the table, the one entity type its routes accept, spelled out |
| `EntityKinds.MalformedKindRejected` | app/model/entity_utils.py:79-87 | Kinds of other than four segments are rejected on every route of an entity |
| `EntityKinds.UncheckedRoutes` | app/wdms_app.py:252-375 | Among the entities with routes it rejects nothing exactly for PPFG datasets and WellLog acquisitions |
| `CommitRoute.GeneratedIdFits` | app/clients/storage_service_blob_storage.py:92-95 | An identifier generated for a new record fits the pattern exactly when the first segment of its kind is a name and the third is not empty |
| `CommitRoute.NewVersionReadsBack` | app/routers/bulk/bulk_routes.py:321-336 | A reader of the published version finds exactly the identifier the worker returned, as V1, under the id and kind of the base |
| `CommitRoute.FetchBase` | app/routers/record_utils.py:34-58 | The base of a commit is the requested version, or the latest if that is zero |
| `CommitRoute.PublishOn` | app/routers/bulk/utils.py:81-86 | Stores exactly one new version with the worker's id written into it, or nothing if the id cannot be written |
| `CommitRoute.Commit` | app/routers/bulk/bulk_routes.py:308-348 | Nothing is published exactly when there is no base, its kind is not served, its URI is unreadable in update mode, the worker raises or its id cannot be written; otherwise exactly one version, and the one parsed from the reply is the one stored exactly when the id fits the pattern |
| `CompleteSession.CommitSession` | app/routers/bulk/bulk_routes.py:298-350 | Refused entry changes nothing; a failing body leaves the session open and publishes nothing; otherwise the session is committed and exactly one version published, on the base and in the mode the session was created with, also when the reply then cannot be read, which happens exactly for ids off the pattern |
| `CompleteSession.AbandonSession` | app/routers/bulk/bulk_routes.py:352-365 | The session is abandoned exactly when the guard can be entered; otherwise nothing changes |
| `Provenance.CheckBulkUri` | app/routers/ddms_v3/ddms_v3_utils.py:50-116 | The nine-row table reduces to one rule: accepted exactly when the normalised URI equals the normalised previous one, absent when there is no previous version |
| `Provenance.DecisionTable` | app/routers/ddms_v3/ddms_v3_utils.py:50-116 | The nine cases by what the two records hold, without normal forms: when a record is accepted, when rejected and when the check itself fails, each exactly |
| `Provenance.AcceptedUriIsPrevious` | app/routers/ddms_v3/ddms_v3_utils.py:101-116 | An accepted record with a valid URI has an id and a previous version with that very URI |
| `Provenance.EveryUriWasIssued` | app/routers/ddms_v3/ddms_v3_utils.py:50-116 | Over every interleaving of checked writes, bulk posts, commits and deletions, whichever stored version the check is made against and however the worker spells its identifier, each valid URI in any stored version of a record was issued by the worker for that same record |
| `Provenance.StepsStore` | app/routers/bulk/utils.py:81-86 | Publishing appends exactly the data that was checked or produced, and no other step but deletion changes the versions kept |
| `ColumnLabels.MatchIsGreedy` | app/bulk_persistence/dataframe_columns.py:8-8 | The parser matches exactly the labels the pattern matches and returns the greedy reading: longest name, then longest start, then the colon |
| `ColumnLabels.GroupCurveColumns` | app/bulk_persistence/dataframe_columns.py:11-34 | The loop computes the grouping function |
| `ColumnLabels.CurveNameAndColumnCount` | app/bulk_persistence/consistency_checks.py:214-227 | The loop computes the counting function |
| `ColumnLabels.GroupingsAgree` | app/bulk_persistence/consistency_checks.py:158-227 | The two groupings have the same curves with the same sizes exactly when no label is empty, collisions included |
| `ColumnLabels.EmptyLabelIsDropped` | app/bulk_persistence/consistency_checks.py:225-226 | A label list on which the two groupings disagree |
| `ColumnLabels.GroupsPartition` | app/bulk_persistence/dataframe_columns.py:27-34 | If no plain label overwrites a group, every group is exactly the labels of its curve in input order |
| `ColumnLabels.PartitionIffNoOverwrite` | app/bulk_persistence/dataframe_columns.py:27-34 | The groups are exactly the labels of each curve in input order if and only if no plain label overwrites a group |
| `ColumnLabels.OfCurveKeepsOrder` | app/bulk_persistence/dataframe_columns.py:27-34 | The labels of a curve keep the order of the input |
| `ColumnLabels.DistinctLabelsPartition` | app/bulk_persistence/dataframe_columns.py:27-34 | Distinct labels, none equal to the name of an array, never overwrite a group |
| `ColumnLabels.CountsAddUp` | app/bulk_persistence/consistency_checks.py:172-174 | The counts never exceed the number of columns and add up to it exactly when nothing is overwritten |
| `ColumnLabels.ElementBelongs` | app/bulk_persistence/dataframe_columns.py:122-125 | Every element label a slice generates parses back to the array it was generated for |
| `ColumnLabels.SliceWithinArray` | app/bulk_persistence/dataframe_columns.py:116-125 | A slice selects only columns of the array it names |
| `ColumnLabels.SliceDenotes` | app/bulk_persistence/dataframe_columns.py:116-125 | A slice denotes exactly the existing elements between its bounds, both included, negative bounds too |
| `ColumnLabels.NameDenotes` | app/bulk_persistence/dataframe_columns.py:107-127 | A column denotes itself, even if it looks like a slice; an array name denotes all labels of that name |
| `ColumnLabels.SliceSpelling` | app/bulk_persistence/dataframe_columns.py:122-125 | Element and slice labels spelled out |
| `ColumnLabels.IntegersParse` | app/bulk_persistence/dataframe_columns.py:120-124 | Printed integers are read back as bounds, negative ones included |
| `ColumnLabels.IntegerForms` | app/bulk_persistence/dataframe_columns.py:120-124 | A plus sign and space around a bound are accepted |
| `ColumnLabels.SeparatedInteger` | app/bulk_persistence/dataframe_columns.py:120-124 | Underscores between the digits of a bound are accepted |
| `ColumnLabels.NotAnInteger` | app/bulk_persistence/dataframe_columns.py:120-124 | Without space at its ends a bound is accepted exactly if it is an optional sign and digits with single underscores |
| `ColumnLabels.SelectionIsUnion` | app/bulk_persistence/dataframe_columns.py:80-136 | The selected columns are duplicate-free and exactly the union of what the selections denote |
| `ColumnLabels.SelectedInOrder` | app/bulk_persistence/dataframe_columns.py:103-136 | Each selection appends what it denotes, as listed by the sort, less what is there already |
| `ColumnLabels.MissingExactly` | app/bulk_persistence/dataframe_columns.py:126-136 | Reported as missing are exactly the selections that denote no column and are no integer slice |
| `ColumnLabels.MissingInOrder` | app/bulk_persistence/dataframe_columns.py:129-136 | Missing selections are reported in the order of the input, each as often as it occurs |
| `ColumnLabels.EmptySliceIsUnreported` | app/bulk_persistence/dataframe_columns.py:116-134 | A slice none of whose elements exist selects nothing and is not reported as missing |
| `ColumnLabels.UnreportedSliceExists` | app/bulk_persistence/dataframe_columns.py:116-134 | A concrete selection and frame for which that happens |
| `ColumnLabels.ArrayIndex` | app/bulk_persistence/dataframe_columns.py:112-113 | Whatever the enumeration order of the set, the index holds each array with exactly its columns |
| `ColumnLabels.Slice` | app/bulk_persistence/dataframe_columns.py:122-125 | Exactly the existing elements between both bounds, bounds included |
| `ColumnLabels.MatchingColumns` | app/bulk_persistence/dataframe_columns.py:115-130 | One selection yields what it denotes, or nothing exactly when it is no array and no integer slice |
| `ColumnLabels.SelectColumns` | app/bulk_persistence/dataframe_columns.py:80-136 | First result: each selection's denotation in order without repetition; second: exactly the unknown selections in order; the lazily built index changes nothing |
| `WellLogs.UniqueCurveIds` | app/consistency/unique.py:35-59 | Reports a duplicate exactly when two curves share a non-empty id; otherwise returns exactly the non-empty ids |
| `WellLogs.CheckWellLog` | app/consistency/welllog_consistency.py:51-73 | Accepts exactly when ids are unique and the reference, if given, is one of them |
| `WellLogs.ColumnCheckIsExact` | app/consistency/welllog_consistency.py:135-180 | For every list of curves, the empty one included, the column check passes exactly when every curve has an id, every label's curve is listed, and every listed curve with data has as many labels as declared, one by default |
| `WellLogs.ColumnReasons` | app/consistency/welllog_consistency.py:142-166 | Why columns are refused: a curve without id first, then a label whose curve is not listed, each exactly |
| `WellLogs.SizesCompared` | app/consistency/welllog_consistency.py:168-172 | How a declared number of columns is compared: numbers and truth values by value, nothing else equals a count |
| `WellLogs.StrictIsDistinctMonotone` | app/consistency/reference_check.py:9-19 | The duplicate, monotonicity and NaN flags pass exactly for columns without NaN that strictly increase or strictly decrease |
| `WellLogs.ReferenceReasons` | app/consistency/reference_check.py:9-46 | Why a reference is refused: repetition, missing numbers, order, first value, last value, each exactly and in this order |
| `WellLogs.CloseMeans` | app/consistency/reference_check.py:38-39 | Values are close exactly if their difference is at most a thousand-millionth of the greater absolute value |
| `WellLogs.NearMeans` | app/consistency/reference_check.py:38-39 | A bound not given is near everything, one given only to numbers close to it |
| `WellLogs.FamilyOfReference` | app/consistency/welllog_consistency.py:205-212 | With unique ids the reference is checked exactly if the family of the reference curve is that of Measured Depth in the record's partition, spelled out |
| `WellLogs.AcceptedReferenceIsStrict` | app/consistency/welllog_consistency.py:92-131 | A non-empty frame with a plain Measured Depth reference is accepted exactly when its columns match, the reference is strictly monotone over all rows without NaN, and its ends are within relative 1e-9 of the sampling bounds given |
| `WellLogs.OtherwiseOnlyColumns` | app/consistency/welllog_consistency.py:97-108 | Without data for the reference, or with one of another family, only the columns are checked |
| `SchemaCache.SchemaManager.LoadKnown` | app/schemas/schema_manager.py:69-93 | All four dictionaries are filled under the kind each schema names, a later one replacing an earlier one |
| `SchemaCache.SchemaManager.Known` | app/schemas/schema_manager.py:141-157 | Each mode reads its own dictionary, so a known kind yields the requested version |
| `SchemaCache.SchemaManager.GetSchema` | app/schemas/schema_manager.py:159-181 | The answer and the new cache of one request; the four dictionaries keep the same keys |
| `SchemaCache.BuiltAsWanted` | app/schemas/schema_manager.py:44-67 | Each mode's version by what the schema tools do to the service's schema, the optimised forbidding one being the optimisation of the forbidding one |
| `SchemaCache.WellKnownKinds` | app/schemas/schema_manager.py:174-174 | Cached are exactly kinds whose first eight letters are `osdu:wks` in any case |
| `SchemaCache.PreloadedIsTruthful` | app/schemas/schema_manager.py:69-93 | Preloaded schemas that agree with the service make a truthful cache of exactly the kinds they name |
| `SchemaCache.CacheComesFrom` | app/schemas/schema_manager.py:168-181 | After any requests, whatever the service answers, every cached entry was preloaded or is built from a schema obtained under a kind not preloaded that names this well-known kind |
| `SchemaCache.CacheIsTransparent` | app/schemas/schema_manager.py:159-181 | If the names agree, then after any requests the next is answered as if the service had been asked, and no kind outside `osdu:wks` was added |
| `SchemaCache.TransparentIffNamesAgree` | app/schemas/schema_manager.py:159-181 | For every preloaded cache and service, however its answers vary: the cache is transparent over all sequences of requests if and only if preloaded schemas are the service's and a well-known schema obtained under another kind is that of the kind it names |
| `SchemaCache.FaithfulIsTransparent` | app/schemas/schema_manager.py:69-181 | With immutable well-known schemas, aliases answered with the schema they stand for, and preloaded schemas that agree, the cache is transparent |
| `SchemaCache.ForeignSchemaIsServed` | app/schemas/schema_manager.py:173-181 | A schema naming another, well-known kind is served for that kind from then on |
| `BulkFilters.ParseOp` | app/bulk_persistence/model_chunking.py:107-108 | The operator found by the pattern is the only one spelled that way |
| `BulkFilters.FromString` | app/bulk_persistence/bulk_filter.py:15-22 | In any letter case, the operator is the one whose lower-case spelling the text has; it agrees with the pattern on what that admits |
| `BulkFilters.OperatorNames` | app/bulk_persistence/bulk_filter.py:7-14 | The names of the seven operators |
| `BulkFilters.TailRoundTrip` | app/bulk_persistence/model_chunking.py:107-108 | Operator and value read back as printed, for every value |
| `BulkFilters.QuotedRoundTrip` | app/bulk_persistence/model_chunking.py:107-143 | A quoted filter reads back as itself exactly when no quote in its value could close the column; always if the value has no quote |
| `BulkFilters.PlainRoundTrip` | app/bulk_persistence/model_chunking.py:107-143 | An unquoted filter reads back as itself exactly when its column has no colon and, should it start with a quote, neither its end nor the value holds a quote that could close it |
| `BulkFilters.ParsedWasPrinted` | app/bulk_persistence/model_chunking.py:107-143 | Nothing else is accepted: whatever is read is a quoted or an unquoted filter as printed, with a non-empty column |
| `BulkFilters.GetBulkFilters` | app/bulk_persistence/model_chunking.py:130-144 | Fails exactly when some expression is malformed; otherwise all filters in order |
| `BulkFilters.MakeFilters` | app/bulk_persistence/bulk_filter.py:37-56 | Accepts exactly when no (column, operator) pair repeats and no column has both `eq` and `in`, and keeps the input order |

## Left out

- A failure of the commit body after the publication: the source has no statement there, so none is modelled; a publication whose reply is lost is outside the publish-or-raise assumption.
- WellLogs.ColumnCheckIsExact: a missing `Curves` list together with no columns, which the source cannot iterate, and `CurveID` values that are not texts are not modelled; declared sizes are integers, truth values or other JSON, not floats.
- WellLogs.AcceptedReferenceIsStrict: cells are real numbers or NaN; rounding and infinities are not modelled.
- Records.Record.RestoreWdms: in a list of pairs, an object of two keys taken as a pair depends on the order of its keys, which is not modelled, and is an error here; keys that are not texts are not kept.
- Serialisation of records: a stored blob is its parsed record.
- Provenance.EveryUriWasIssued: a request with several records is several requests, each checked and published on its own.
- Records.GetBulkUri: the branch for typed models, and the access through `LogBulkIdAccess`, are not modelled.
- `get_reference_curve` and the consistency checks inside the worker call: a failing one is part of the worker raising.
- The bulk worker and the other HTTP clients: a worker call returns an identifier or raises.
- `post_chunk_data`: it checks for an open session and then writes without holding anything, so nothing about its chunks is decided here.
- `update_session`: not for state changes and not used by the modelled code.
- Purge of bulk blobs, family recognition, search paging: they depend on conventions of services not modelled here.
- Consistency of chunked bulks through `check_bulk_consistency` alone, the checks of trajectories, interval sets and other entities, and `get_unique_attr_values` for objects.
- Authentication, tenants, configuration, tracing, OpenAPI, serialisation to Parquet or JSON: plumbing.
