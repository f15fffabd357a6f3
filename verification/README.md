# A verified model of the profile backend

The backend keeps entity profiles: JSON documents whose fields carry the source that decided them,
stored as numbered versions next to an outbox of change events, external references and field
conflicts, with a catalog of entity types beside them. This project models that logic in Dafny and
proves what its operations promise. It follows the backend's parts:

- **Documents and authority** (`DocumentPaths`, `Authority`, `AuthorityMerge`, `DuplicateMerge`,
  `ProfileViews`, `Convergence`, `History`, `Abac`). Loops over Go maps pick any remaining key, so
  every result holds for every iteration order. `View` is what a reader sees: at each path a value
  and its effective source; the laws of updates, merges, resolutions and filters are stated on it.
- **The store** (`ExternalRefs`, `Tables`, `Statements`, `CatalogStatements`, `Requests`,
  `Transactions`, `Effects`, `Runs`, `SerialOrder`, `Deadlocks`, `Races`, `StoredHistories`,
  `ProfileSteps`, `EventNames`). `Transactions` is a machine whose steps are the queries, row locks,
  foreign-key and cascade claims, and commits of concurrent transactions. `Tables` says what every
  committed state keeps, `Effects` what each commit leaves in every table, `Runs` and
  `StoredHistories` what every run guarantees, `SerialOrder` when an interleaved transaction equals
  one that runs alone, `Deadlocks` who can wait for whom in a circle, and `Races` what interleaving
  adds.
- **The services** (`Service`, `BatchUpgrade`, `Catalog`, `Pagination`): classes over the committed
  tables, each method one transaction, proved against the same writes as the machine.
- **The background tasks** (`OutboxWorker`, `OutboxHandler`, `Announcements`, `Backoff`, `SourceSync`):
  machines with crashes at any moment, and the task bodies as methods. `Announcements` puts the
  transactions and the outbox workers together, from a stored version to the broker.
- **Schema reports** (`JsonPointer`), and small helpers (`Text`, `Maps`, `Lists`, `Basics`, `JsonValues`).

`dafny verify dfyconfig.toml` checks everything.

Where the code and an expectation part, the model follows the code and states exactly when the
expectation holds:

- Flattening and unflattening undo each other exactly on well-formed documents and paths
  (`DocumentPaths.RoundTripDocument`, `DocumentPaths.RoundTripFlat`); with clashing names the result
  depends on the iteration order, which `DocumentPaths.IsUnflattened` leaves open.
- Updates in different orders converge exactly when, at each path, the value of the strongest update
  is not also brought by a weaker one: an equal value does not raise the stored source
  (`Convergence.UpdatesConverge`; for whole documents `History.RunsConverge`).
- A resolution writes the conflicting path exactly when the value can be stored there
  (`History.ResolutionWritesThePath`).
- An update stores every path exactly when no name becomes both a root field and a namespace
  (`AuthorityMerge.UpdateStoresEveryPath`).
- The authority entry of a path is filed under the path's own segment exactly when the namespace is
  not blank (`Abac.SegmentOfPath`).
- Two external references collide in validation also when a line break inside a name makes their
  keys coincide (`ExternalRefs.KeysCoincide`).
- An interleaved commit is what the same transaction would do alone exactly when what it read without
  a lock still holds: its checks made before the first lock, the revision it chose, and the type key
  that its event carries (`SerialOrder.CommitIsSerial`). A conflict is resolved at most once by
  transactions that run one after another, while two that find it open together both resolve it
  (`Races.ConflictResolvedTwice`); and an event can carry a type key that its family has just lost
  (`Races.EventCarriesOldKey`).
- Transactions wait for each other in a circle exactly when a publication and a deletion of one family
  meet, or when deletions that have come upon entities wait in a circle through upgrades and merges
  (`Deadlocks.CirclesAre`). The first kind is within reach of every family without revisions and
  entities (`Races.PublishAndDeleteMeet`); without a family being deleted there is none
  (`Deadlocks.SomeTransactionMoves`).
- A published row was accepted exactly once if and only if no acceptance of it was lost, that is,
  answered with an error or made in a batch that rolled back (`OutboxWorker.AcceptedOnceUnlessLost`).
  Both happen (`OutboxWorker.DeliveredTwice`, `OutboxWorker.TimedOutAndPublishedAgain`).
- The stored cursor stands where the last committed slice ended, which is the furthest position ever
  read if and only if no earlier slice went beyond it; the applied events are exactly those before
  the cursor if and only if the earlier slices brought nothing new beyond it
  (`SourceSync.ExactUpToTheCursor`). Runs that each see the checkpoint they overwrite keep both
  (`SourceSync.SerialRunsAreExact`); racing first runs can break both (`SourceSync.CursorMayFallBack`).
- The two copies of the backoff agree for every given base; their defaults differ
  (`Backoff.CopiesAgree`).

## Model

| member | source | states |
|---|---|---|
| DocumentPaths.FlattenDocument | internal/profiles/document_paths.go:12-32 | for every order of the two loops the result maps a path to a value only if some field contributes it, and has every contributed path |
| DocumentPaths.UnflattenDocument | internal/profiles/document_paths.go:34-56 | for every order the result has exactly the root fields and namespaces of the paths, each with its values; under a name that is both stands the root value, or an object made of fields of the two, which lacks none of the root value's own if that is an object and is not empty otherwise |
| DocumentPaths.RoundTripDocument | internal/profiles/document_paths.go:12-56 | unflattening what was flattened gives the document back if and only if it is well formed (no metadata, no object named default, no empty object, no slash in an object's name, no empty field name) |
| DocumentPaths.RoundTripFlat | internal/profiles/document_paths.go:12-56 | flattening what was unflattened gives the paths back if and only if they are well formed and no name is both root field and namespace |
| DocumentPaths.FlattenedUnique | internal/profiles/document_paths.go:17-30 | the flat form of a well-formed document does not depend on the iteration order |
| DocumentPaths.ReadAuthorityPaths | internal/profiles/document_paths.go:96-114 | reads the trimmed source of exactly those paths whose entry is an object |
| DocumentPaths.SetThenRead | internal/profiles/document_paths.go:96-129 | reading back after writing sources gives the old ones overridden by the written ones |
| DocumentPaths.SettingSources | internal/profiles/document_paths.go:116-129 | setting sources replaces the entries of their paths and leaves all other entries and all other metadata alone |
| DocumentPaths.SplitWithMeta | internal/profiles/document_paths.go:73-93 | splitting what was put together gives data and metadata back |
| DocumentPaths.JoinSplit | internal/profiles/authority_merge.go:25-34 | joining a split conflict path (internal/profiles/service_admin.go:15-20) gives back the path if and only if it has a slash |
| DocumentPaths.FlattenedPathsHaveSlash | internal/profiles/document_paths.go:24-28 | every flattened path has a slash, so every recorded conflict leads back to its path |
| Authority.ManualIsStrongest | internal/profiles/authority.go:10-30 | no source is stronger than manual and only manual is as strong |
| Authority.SourcesRank | internal/profiles/authority.go:10-30 | manual, hris, crm, ad, import, api, sync and internal are each stronger than the next; a blank source counts as api and an unknown one is weaker than all of them |
| Authority.SpellingsAreOneSource | internal/profiles/authority.go:21-29 | spellings of a source that differ in case or in spaces around it are one source |
| Text.TrimTakesSpaces | internal/profiles/authority.go:22 | trimming takes away white space at both ends and nothing else |
| Text.AsciiSpaces | internal/profiles/authority.go:22 | among ASCII characters exactly the blank and those from tab to carriage return are white space |
| Text.LowerIgnoresCase | internal/profiles/authority.go:22 | lowering identifies spellings that differ in the case of ASCII letters, and leaves ASCII text without capitals alone |
| AuthorityMerge.WriteSourceMeans | internal/profiles/authority_merge.go:37-42 | a write without a source counts as one of api |
| ProfileViews.DecisionMeaning | internal/profiles/authority.go:34-54 | equal values are the same; otherwise an update wins if and only if it is of the entry's own source or of a stronger one, loses for its lower priority if and only if it is of a weaker one, and for equal priority if and only if it is of another source as strong |
| ProfileViews.UpdateByPath | internal/profiles/authority_merge.go:55-86 | each path of an updated profile: new paths and those won take the incoming value and source, every other keeps both |
| AuthorityMerge.ApplyAuthorityToDocuments | internal/profiles/authority_merge.go:37-90 | for every iteration order the result writes exactly the paths that win against the document as it was, lists the conflicts once each, and reports a change exactly when something was written |
| AuthorityMerge.UpdateIsPointwise | internal/profiles/authority_merge.go:55-89 | a regular update (the merged paths can be stored together, whatever the shape of the incoming document) changes what readers see path by path: winning paths take value and source, all others keep both; changed holds exactly when the flat data differ |
| AuthorityMerge.UpdateReportsLosses | internal/profiles/authority_merge.go:74-85 | every update of a stored profile, with any incoming document, lists one conflict for each path at which it loses, and none else; it names the path, both values, both sources and the reason |
| AuthorityMerge.OwnSourceOverwrites | internal/profiles/authority.go:40-43 | after a regular update each incoming path that was of the update's own source has the incoming value, and an update of nothing but such paths and new ones has no conflicts and is stored whole |
| AuthorityMerge.ViewShowsField | internal/profiles/document_paths.go:17-24 | readers see the field f of an object k at k/f |
| AuthorityMerge.ViewShowsRoot | internal/profiles/document_paths.go:25-29 | and a root field k at default/k |
| AuthorityMerge.ViewShowsNoMore | internal/profiles/document_paths.go:12-32 | and nothing at any other path |
| AuthorityMerge.ViewShowsSource | internal/profiles/document_paths.go:96-114 | each with the source that the metadata name for the path, or api when they name none (internal/profiles/authority_merge.go:17-23) |
| AuthorityMerge.UpdateStoresEveryPath | internal/profiles/authority_merge.go:88-89 | the stored document flattens to the merged paths if and only if these are well formed; when both sides are, if and only if no name is a root field in one and a namespace in the other |
| ProfileViews.RepeatedUpdate | internal/profiles/authority_merge.go:55-89 | the same update again changes nothing and repeats the same conflicts |
| DuplicateMerge.MergeDocumentsForDuplicate | internal/profiles/authority_merge.go:93-128 | for every iteration order the target takes exactly the source's new paths and those of strictly higher priority |
| DuplicateMerge.DuplicateMergeIsMaximum | internal/profiles/authority_merge.go:104-127 | on what readers see, a merge is the left-biased maximum on priority |
| ProfileViews.MergeIsMaximum | internal/profiles/authority_merge.go:104-124 | a merged path has the higher of the two priorities, and the target's entry unless the source's is strictly stronger |
| ProfileViews.MergeAssociative | internal/profiles/authority_merge.go:104-124 | merging is associative and idempotent |
| ProfileViews.ChainTakesFirstStrongest | internal/profiles/authority_merge.go:104-124 | however a chain of merges is bracketed, each path ends with the first of its strongest entries, and exactly the paths of the union exist |
| DuplicateMerge.InitialDocumentWithAuthority | internal/profiles/service_helpers.go:13-25 | the first document carries the incoming data with the write source at every path |
| DuplicateMerge.CreateIsAnUpdate | internal/profiles/service_helpers.go:13-25 | what readers see of a created profile is the update of the empty one, whatever the shape of the document, as long as its paths can be stored together |
| Convergence.UpdatesConverge | internal/profiles/authority_merge.go:55-86 | for sources of pairwise different priorities every order of the updates gives the same profile if and only if at each path the strongest update brings a value of its own; the profile then holds the strongest writer of each path |
| History.RunAppliesWrites | internal/profiles/authority_merge.go:37-90 | a run of regular updates leaves the profile that folding its writes gives, in a document that holds nothing else |
| History.RunsConverge | internal/profiles/authority_merge.go:37-90 | for sources of pairwise different priorities, all runs of the same regular updates end with the same document, data and authority map, if and only if at each path the strongest update brings a value of its own; it then holds the strongest write at each path |
| History.ResolveDocument | internal/profiles/service_admin.go:122-128 | flattens, sets the joined path, unflattens, and sets the source manual there |
| History.ResolutionWritesThePath | internal/profiles/service_admin.go:122-128 | the conflicting path and no other is written if and only if the resolution is regular; readers then see the value with source manual |
| History.HistorySucceeds | internal/profiles/service_admin.go:122-128 | over any updates, resolutions, upgrades and merges no path disappears and no source gets weaker |
| History.PinnedValueSurvives | internal/profiles/authority.go:34-54 | a value decided by hand survives everything but another manual decision on its path |
| Abac.ParsePolicy | internal/abac/policy.go:28-60 | keeps exactly the trimmed non-blank segments, with trimmed non-blank roles |
| Abac.NormalRolesAre | internal/abac/policy.go:40-58 | a role is in a normalized list if and only if it is not blank and one of the list is it up to spaces |
| Abac.FilterDocument | internal/abac/policy.go:102-131 | keeps visible segments, unaltered, and the authority entries of visible paths, for every iteration order |
| Abac.FilterMeta | internal/abac/policy.go:133-150 | keeps the authority entries whose segment is visible, unaltered, and no other metadata |
| Abac.FilterSnapshot | internal/abac/policy.go:69-98 | under a policy exactly those paths are shown, with their values and sources, whose namespace has a role in the policy that the caller has, spaces aside; a namespace without one leaves no object, root field or authority entry; an empty policy filters nothing |
| Abac.PolicyIgnoresSpaces | internal/abac/policy.go:85-90 | visibility of a segment does not depend on spaces around its name |
| Abac.FilterTwice | internal/abac/policy.go:102-150 | filtering twice is filtering once, for every document and visibility |
| Abac.FlatOfFiltered | internal/abac/policy.go:110-124 | flattening the filtered data is the flat data restricted to visible namespaces |
| Abac.FilterRestricts | internal/abac/policy.go:102-159 | values and effective sources are restricted alike |
| Abac.SegmentOfPath | internal/abac/policy.go:152-159 | an authority entry is filed under its path's own segment if and only if the namespace is not blank |
| Abac.FilterIsMonotone | internal/abac/policy.go:77-98 | with more roles nothing seen with fewer is hidden or altered |
| Abac.FilterCommutesWithMerge | internal/abac/policy.go:102-131 | filtering a merged profile and merging filtered profiles show the same (internal/profiles/authority_merge.go:93-128) |
| ExternalRefs.ValidateExternalRefs | internal/profiles/service.go:646-661 | accepts exactly the lists without blank parts and without a repeated key, and reports the first offence |
| ExternalRefs.ValidRefsMeans | internal/profiles/service.go:646-661 | the accepted lists, said of the trimmed parts of their references |
| ExternalRefs.KeysCoincide | internal/profiles/service.go:654-658 | two references have the same key if and only if they are equal up to spaces or a line break makes one name run into the other |
| ExternalRefs.ValidRefsAreDistinct | internal/profiles/service.go:646-661 | no reference passes validation twice |
| ExternalRefs.ExternalRefsChanged | internal/profiles/service_helpers.go:27-49 | sort-and-compare reports a change if and only if the lists differ as multisets |
| ExternalRefs.ChangeMeansSetsDiffer | internal/profiles/service_helpers.go:27-49 | for valid trimmed references a change is reported if and only if the sets differ; an untrimmed one always counts as a change |
| Statements.AddVersionSound | internal/profiles/service.go:573-585 | the row MAX(version)+1 is free in both tables, and version and event (internal/profiles/outbox.go:16-56) together restore everything a committed state keeps |
| Statements.MovingKeepsReferences | internal/profiles/service_admin.go:252-276 | the collision query finds nothing; the target ends with the union, no reference is lost or added, nobody else's change |
| Statements.RemoveEntitySound | internal/profiles/service.go:349-358 | deleting an entity with its cascade (atlas/migrations/20260423120000_profile_outbox.sql:24) keeps the tables sound and disturbs no other row |
| Statements.ReplaceRefsSound | internal/profiles/service.go:587-613 | replacing references keeps them a partial function and gives the entity exactly the trimmed list |
| CatalogStatements.AddRevisionSound | internal/entitytypes/catalog.go:183-201 | MAX(revision_no)+1 is free and publishing under it keeps the numbers 1..n |
| CatalogStatements.RemoveFamilySound | internal/entitytypes/catalog_more.go:79-85 | deleting a family without entities leaves no dangling binding or event, even if it has revisions |
| Requests.UpdateSound | internal/profiles/service.go:210-252 | an update that has read the current row leads from a sound state to a sound one and disturbs no other entity |
| Requests.MergeSound | internal/profiles/service_admin.go:252-296 | the same for a merge |
| Requests.UpgradeSound | internal/profiles/service_upgrade.go:87-152 | the same for an upgrade |
| Requests.ResolveSound | internal/profiles/service_admin.go:122-161 | the same for a resolution |
| Requests.CreateSound | internal/profiles/service.go:139-165 | the same for a creation; the new entity has version 1 and exactly the requested references |
| Transactions.TxKept | internal/profiles/service.go:615-629 | what a transaction has read under its row locks stays true through every commit of others |
| Transactions.WritesSound | internal/profiles/service.go:192-258 | what any transaction writes on the strength of what it has read leads to a sound state in which only its own rows are disturbed |
| Transactions.CommitsInv | internal/profiles/service.go:192-258 | a commit keeps the invariant of all open transactions |
| Transactions.StepInv | internal/profiles/service.go:192-258 | every step of every interleaving of creations, updates, resolutions, merges, upgrades, deletions and catalog changes keeps the invariant, and undoes nothing |
| Effects.CommitDoes | internal/profiles/service.go:192-258 | under every interleaving a commit acts on the documents current at that moment: which document becomes the next version, which event, references, conflicts, bindings and drafts change, and that all other rows of all tables are as before |
| Effects.ResolvedByItsResolution | internal/profiles/service_admin.go:150-157 | in every step an open conflict becomes resolved only by the commit of a resolution of this conflict |
| Effects.SingleDoes | internal/entitytypes/catalog_more.go:29-54 | a transaction of one statement deletes an entity with its rows (internal/profiles/service.go:349-358), or adds or renames a family under a key of its own |
| Effects.ReadsWhatIsThere | internal/profiles/outbox.go:64-87 | each query finds the current document, the revision that is meant and the family's key as they stand at that moment (internal/profiles/service_upgrade.go:165-223) |
| Effects.BeginsAfterChecks | internal/profiles/service_admin.go:88-106 | what has been checked when a transaction begins: an open conflict, two different entities, a latest schema that accepts the document (internal/profiles/service.go:121-148), an unused family (internal/entitytypes/catalog_more.go:67-77) |
| Effects.ProfileAfterMerge | internal/profiles/service_admin.go:278-287 | after a merge of regular profiles the target's current profile is the left-biased maximum of the two |
| Effects.ProfileAfterUpdate | internal/profiles/service.go:210-249 | after a regular update the current profile is the one before, updated by the incoming paths |
| Effects.ProfileAfterResolve | internal/profiles/service_admin.go:122-148 | after a regular resolution the current profile is the one before with the value at the path, decided by hand |
| Effects.ProfileAfterCreate | internal/profiles/service.go:139-165 | the current profile of a new entity has the incoming paths with the source of the creation |
| Runs.VersionsAreNumbered | internal/profiles/service.go:231-249 | in every reachable state each entity's versions are exactly 1..n with exactly one event each (internal/profiles/outbox.go:37-51), the latest naming the bound revision |
| Runs.VersionsNeverChange | internal/profiles/service.go:573-585 | stored versions and events never change, exist exactly as long as their entity, and never come back with other contents |
| Runs.EventsKeepTheBinding | internal/profiles/outbox.go:16-87 | the event of a version carries for ever the revision, and its number, bound when it was written |
| Runs.RevisionsAreNumbered | internal/entitytypes/catalog.go:147-211 | in every reachable state a family's revisions are exactly 1..n, one per number, and its entities are bound to them |
| Runs.RevisionsNeverChange | internal/entitytypes/catalog.go:197-201 | a published revision never changes and lives as long as its family |
| Runs.ReferencesLeadToOneEntity | internal/profiles/service.go:596-611 | in every reachable state a reference leads to one existing entity |
| Runs.NextNumberIsFree | internal/profiles/outbox.go:37-51 | a next number read under the lock is still free when it is used: the primary keys never refuse it and ON CONFLICT DO NOTHING never drops an event |
| Runs.MergeMeetsNoCollision | internal/profiles/service_admin.go:252-265 | the collision count of a merge is always zero |
| EventNames.EventNamesDiffer | internal/profiles/profile_event.go:28-32 | two versions have the same event name if and only if they are the same version of the same entity and tenant |
| EventNames.NameParts | internal/profiles/profile_event.go:30 | the name is tenant, entity and version in this order |
| EventNames.FormatIntRead | internal/profiles/profile_event.go:30 | a printed version number reads back |
| SerialOrder.CommitIsSerial | internal/profiles/service_admin.go:88-106 | an interleaved commit equals the transaction run alone at that moment if and only if what it read without a lock still holds: open conflict; latest schema (internal/profiles/service.go:121-148); unpublished family (internal/entitytypes/catalog_more.go:67-77); chosen revision; and, when it writes an event, the family's type key (internal/profiles/outbox.go:64-87) |
| Races.ResolutionGoesThrough | internal/profiles/service_admin.go:88-175 | once a resolution has found its conflict open it always goes through after getting its lock, whatever has become of the conflict |
| Races.ConflictResolvedTwice | internal/profiles/service_admin.go:88-106 | in every state with an open conflict on an unlocked entity, two concurrent resolutions can both commit, each with a version |
| Races.EventCarriesOldKey | internal/profiles/outbox.go:64-87 | in every state with an open conflict on an unlocked entity, a run leads to an event with a type key that its family no longer has (internal/entitytypes/catalog_more.go:29-54) |
| Deadlocks.CirclesAre | internal/entitytypes/catalog.go:159-201 | transactions wait for each other in a circle if and only if a publication that holds the draft and needs the family meets the deletion that holds the family and needs the draft (internal/entitytypes/catalog_more.go:79-85), or deletions that have come upon entities wait in a circle through merges and upgrades |
| Deadlocks.CircleHasDeletion | internal/profiles/service_admin.go:204-210 | merges lock in id order, so every circle of the second kind has a deletion in it and an upgrade that waits for it |
| Deadlocks.SomeTransactionMoves | internal/profiles/service_admin.go:204-210 | as long as no deletion has a family's row, some open transaction waits for nobody |
| Deadlocks.UpgradeMeetsDelete | internal/profiles/service_upgrade.go:87-152 | the shortest circle of the second kind: an upgrade to a revision that a deletion has reached, which comes upon the upgrade's entity |
| Races.PublishAndDeleteMeet | internal/entitytypes/catalog_more.go:57-90 | for every family without revisions and entities that nobody works on, a run leads to a publication and a deletion of it that wait for each other |
| StoredHistories.VersionsNeverWeaken | internal/profiles/service.go:195-258 | in every interleaved run of regular operations (incoming documents of any shape) no later version loses a path or weakens a source |
| StoredHistories.ManualStaysManual | internal/profiles/service.go:195-258 | a path decided by hand stays so in every later version |
| StoredHistories.PinnedValueStays | internal/profiles/authority.go:34-54 | and its value stays: when no commit between two stored versions is a manual decision about the path, both have the same value there from the same source |
| ProfileSteps.RegularStepSucceeds | internal/profiles/authority_merge.go:37-128 | each regular operation on documents keeps every path and never weakens a source, and keeps a value decided by hand at a path that it does not decide by hand |
| Service.ProfileService.CreateProfile | internal/profiles/service.go:95-171 | succeeds if and only if the references are valid and nobody's and the latest schema accepts the document; version 1 is the incoming document with its source, under the latest revision, with an event under the family's key; each failure exactly under its condition, leaving the tables as they were |
| Service.ProfileService.UpdateProfile | internal/profiles/service.go:173-258 | the merged document becomes current if the merge changes something, else the present one stays, with the requested references; it answers that everything is blocked if and only if the merge changes nothing, reports conflicts and the references are the same, and then only the conflicts are recorded; a reference of another entity is reported if and only if there is one and something was to be written |
| Service.ProfileService.DeleteProfile | internal/profiles/service.go:344-360 | removes the entity with its versions, events, references and conflicts and nothing else, or fails exactly when there is none |
| Service.ProfileService.ResolveFieldConflict | internal/profiles/service_admin.go:77-175 | succeeds exactly on open conflicts and leaves this conflict resolved and every other one as it was; the document with the value set by hand becomes current; alone it succeeds at most once |
| Service.ProfileService.MergeEntityProfiles | internal/profiles/service_admin.go:185-320 | succeeds if and only if there are two entities of one family; the merged document becomes current for the target, which has the union of references; the source is gone with its rows; a collision is never reported |
| Service.ProfileService.UpgradeEntityBinding | internal/profiles/service_upgrade.go:55-158 | binds the entity to the revision that is meant, whose schema accepts the document, and repeats the document as the next version; nothing is written when the binding is the same; each failure exactly under its condition |
| Service.ResolveTargetRevision | internal/profiles/service_upgrade.go:165-223 | finds the revision of the family with the id or number given, or with the highest number, or says exactly why there is none |
| Service.SyncExternalRefs | internal/profiles/service.go:587-613 | succeeds if and only if no other entity has one of the references; the entity then has exactly the trimmed ones, and nobody else's change |
| Service.InsertConflictCandidates | internal/profiles/service_helpers.go:72-93 | adds one open conflict with the candidate's contents for each candidate, under fresh ids, and changes nothing else |
| Service.AloneSound | internal/profiles/service.go:192-258 | every transaction run alone leads from a sound state to a sound one |
| Service.AloneDoes | internal/profiles/service.go:192-258 | every transaction run alone does what its request asks for and nothing else |
| BatchUpgrade.BatchUpgradeEntityBinding | internal/profiles/service_upgrade.go:226-316 | works on the listed entities up to the limit, or on the first of those bound below the target number: then no entity of the family falls to a lower number, entities at or above the target are left alone, and a list shorter than the limit leaves none below out; processed = succeeded + failed = number of results, each what a single upgrade answers at that point |
| BatchUpgrade.UpgradeEach | internal/profiles/service_upgrade.go:294-315 | the loop of a batch: every entity gets its own transaction, and a failure does not stop it |
| BatchUpgrade.BatchRebinds | internal/profiles/service_upgrade.go:294-315 | after a batch exactly the entities with a successful result are bound to the target, and entities outside the list keep binding and versions |
| BatchUpgrade.BatchLowersBehind | internal/profiles/service_upgrade.go:264-316 | an only-behind batch lowers the number of entities behind by exactly the number of successes |
| BatchUpgrade.BatchesNeeded | internal/profiles/service_upgrade.go:231-237 | without rejected documents n entities are moved after k batches if and only if k times the limit reaches n |
| Catalog.CatalogService.CreateDraft | internal/entitytypes/catalog.go:55-101 | adds a family under a trimmed key of its own with draft version 1 and no revision, changing nothing else, or fails exactly on a blank or taken key |
| Catalog.CatalogService.UpdateFamilyMeta | internal/entitytypes/catalog_more.go:29-54 | gives an existing family a key that no other family has and changes nothing else, each failure exactly under its condition |
| Catalog.CatalogService.Publish | internal/entitytypes/catalog.go:147-211 | the draft's schema becomes the revision with the next number and nothing else changes, or it fails exactly without a draft or with an unpublishable schema |
| Catalog.CatalogService.SaveDraft | internal/entitytypes/catalog_more.go:98-148 | the draft takes the schema and its version grows by one; with an expected version it saves only over that one; nothing else changes |
| Catalog.CatalogService.DeleteFamily | internal/entitytypes/catalog_more.go:57-90 | deletes exactly families without entities and revisions, with their draft |
| Pagination.List | internal/profiles/service.go:362-479 | a page shows the first qualifying rows after the cursor, newest first unless updated_asc is asked for, ids deciding ties, up to the limit of 20 by default and 100 at most; a next cursor names the last row if and only if more rows follow; any other sort is refused; the total counts the filter in the table as the second query finds it |
| Pagination.WalkListsEverything | internal/profiles/service.go:410-478 | on a fixed table, in both sort modes, the pages put together are the full sorted listing on ceil(n / limit) pages, one if empty, where n is the count of the filter |
| Pagination.UntouchedReturnedOnce | internal/profiles/service.go:401-471 | while other rows change between the queries, a row that stays as it is is returned exactly once |
| Pagination.WalkEnds | internal/profiles/service.go:401-471 | a walk over a changing table ends: with another cursor after n pages, n times the limit different rows have been listed |
| OutboxWorker.ProcessedSound | internal/asyncjobs/handlers.go:102-182 | what becomes of each field of a row: invalid JSON fails at once; accepted rows are published with a clean record; a refusal costs an attempt and sets the retry time to the delay of that attempt, or fails the row at the limit |
| OutboxWorker.RetriesSpread | internal/asyncjobs/handlers.go:131-144 | refused again, a row waits twice as long up to the last doubling and the cap, and never less |
| OutboxWorker.PicksMeans | internal/asyncjobs/handlers.go:73-81 | a selection holds waiting unlocked rows whose retry time has come, oldest first, and leaves an older one out only when it is full |
| OutboxWorker.StepInv | internal/asyncjobs/handlers.go:67-187 | selections with SKIP LOCKED, publications, commits, rollbacks, insertions and deletions keep: no row in two batches, held rows waiting, published rows delivered |
| OutboxWorker.GuardHits | internal/asyncjobs/handlers.go:137-150 | the guarded UPDATE always hits its row |
| OutboxWorker.DeliveredAtLeastOnce | internal/asyncjobs/handlers.go:67-187 | in every run a published row was accepted at least once, and a retry time is set exactly on rows waiting after a failure |
| OutboxWorker.TerminalRowsStay | internal/asyncjobs/handlers.go:103-181 | published and failed are final |
| OutboxWorker.WorkRunsOut | internal/asyncjobs/handlers.go:73-187 | without new rows the attempts left fall by at least the rows processed in committed batches, and when they are used up nothing waits |
| OutboxWorker.IdleMeansDone | internal/asyncjobs/handlers.go:73-81 | once all retry times have passed and no batch is open, an empty selection means that no row waits |
| OutboxWorker.AcceptedOnceUnlessLost | internal/asyncjobs/handlers.go:121-187 | in every run a published row was accepted exactly once if and only if no acceptance of it was lost: answered with an error (a timeout, internal/asyncjobs/handlers.go:121-123) or made in a batch that rolled back |
| OutboxWorker.DeliveredTwice | internal/asyncjobs/handlers.go:71-122 | a rollback after an accepted call can make the publisher accept a row twice, with no call answered by an error |
| OutboxWorker.TimedOutAndPublishedAgain | internal/asyncjobs/handlers.go:121-150 | so can a call that times out after the message was accepted, with no rollback at all |
| OutboxWorker.StepPayloads | internal/asyncjobs/handlers.go:121-122 | calls carry the payload that stands in the row, and no step alters a payload |
| OutboxHandler.Handlers.HandleOutboxBatch | internal/asyncjobs/handlers.go:55-188 | the task body, failing after any number of rows or not at all, is a run of one batch of the machine; a failed one leaves the table as it was |
| OutboxHandler.SelectDue | internal/asyncjobs/handlers.go:73-97 | selects the oldest due unlocked rows up to the limit |
| Announcements.EveryVersionIsAnnounced | internal/profiles/outbox.go:14-56 | with transactions and workers interleaved in any way, each stored version has for ever one outbox row of its own, which carries the event as it was when the version was written; once the row is published (internal/asyncjobs/handlers.go:169-176) the publisher has accepted just that event |
| Announcements.NothingElseIsAnnounced | internal/asyncjobs/handlers.go:121-122 | each call of the publisher tells the event of a version that was committed when the call was made |
| Announcements.StepInv | internal/profiles/outbox.go:14-56 | each step keeps rows and events one to one, and the outbox in it goes through a run of the workers' machine, where the deletions of an entity's rows (atlas/migrations/20260423120000_profile_outbox.sql:24) wait for the workers that hold them |
| Backoff.OutboxPublishBackoff | internal/asyncjobs/publish_retry.go:12-38 | returns the base doubled at most 16 times and capped at 15 minutes, in wrapping 64-bit arithmetic |
| Backoff.RetryDelayFunc | internal/workerapp/run.go:73-97 | the same for the worker's retries |
| Backoff.DoublingOverflows | internal/asyncjobs/publish_retry.go:25-28 | next < d holds if and only if the doubling overflows |
| Backoff.DelaysAscend | internal/asyncjobs/publish_retry.go:12-38 | delays are positive, monotone and never above the cap |
| Backoff.EachFailureDoubles | internal/asyncjobs/publish_retry.go:24-37 | each further failure doubles the delay up to the cap |
| Backoff.DelaysInSeconds | internal/asyncjobs/publish_retry.go:12-38 | the first delay is the base, one second by default; it doubles to 512 seconds and then stays at 15 minutes; after 16 doublings it stays as it is |
| Backoff.CopiesAgree | internal/workerapp/run.go:62-97 | retry n waits as long as the outbox after failure n+1 if and only if a base is given or both are capped |
| SourceSync.SyncTables.SyncTenantSource | internal/asyncjobs/sync.go:157-243 | a committed run records exactly the new events among the records that have both ids and JSON or no payload, each with its first contents, and moves the cursor to the trimmed next one, or leaves it when that is blank; any other run leaves the tables as they were |
| SourceSync.LoneRun | internal/asyncjobs/sync.go:157-243 | the undisturbed task body is one start, fetch and commit of the history |
| SourceSync.SliceExtends | internal/asyncjobs/sync.go:199-224 | applying a slice that begins within what was read extends it to the slice's end, and re-reading changes nothing |
| SourceSync.StepInv | internal/asyncjobs/sync.go:157-243 | starts with and without a checkpoint, answers, commits and crashes keep the invariant |
| SourceSync.NothingIsSkipped | internal/asyncjobs/sync.go:157-243 | in every history the applied events are exactly the usable ones up to the furthest position read, each with its first contents; none before the stored cursor is missing; the watermark is the highest committed |
| SourceSync.HighestAfter | internal/asyncjobs/handlers.go:218-250 | the upsert keeps the stored watermark the highest committed, whatever the run had read |
| SourceSync.SerialRunsAreExact | internal/asyncjobs/sync.go:164-178 | when every run has seen the checkpoint it overwrites, the cursor is the furthest position and the applied events are exactly the usable ones before it |
| SourceSync.ExactUpToTheCursor | internal/asyncjobs/sync.go:157-243 | in every history the cursor is where the last committed slice ended: the furthest position if and only if no earlier slice went beyond it; and the applied events are exactly the usable ones before it if and only if those slices brought no new event beyond it |
| SourceSync.CommitMovesTo | internal/asyncjobs/sync.go:225-243 | a commit leaves the cursor at the furthest position if and only if its slice ends there or beyond |
| SourceSync.FurthestMeans | internal/asyncjobs/sync.go:157-243 | the furthest position is the greatest at which a committed slice ended |
| SourceSync.HistoryAdvances | internal/asyncjobs/sync.go:214-232 | applied events are never altered or lost and the watermark never falls |
| SourceSync.CursorMayFallBack | internal/asyncjobs/sync.go:175-178 | two first runs that start together can leave the cursor behind the furthest position and behind what they applied |
| JsonPointer.JsonPointerFromTokens | internal/profiles/schema_validate.go:111-121 | prints a slash and the escaped token for each token |
| JsonPointer.EscapeIsOnePass | internal/profiles/schema_validate.go:123-127 | the two replacements are one pass over the token |
| JsonPointer.OrderMatters | internal/profiles/schema_validate.go:123-127 | in the other order they are so if and only if the token has no slash |
| JsonPointer.DecodePrinted | internal/profiles/schema_validate.go:111-127 | reading as in section 4 of RFC 6901 gives back every list of tokens |
| JsonPointer.PrintDecoded | internal/profiles/schema_validate.go:111-127 | every well-formed pointer is the print of what it reads as |
| JsonPointer.PrintInjective | internal/profiles/schema_validate.go:111-127 | different places are printed differently |
| JsonPointer.FlattenValidationError | internal/profiles/schema_validate.go:84-109 | one issue for each leaf, from left to right, or the root's message when there is none |
| JsonPointer.LeavesInOrder | internal/profiles/schema_validate.go:89-104 | the leaves are all nodes without causes, each once, in the order of their ways from the root, from left to right |
| JsonPointer.AlwaysALeaf | internal/profiles/schema_validate.go:105-107 | the fallback is reached only if a cause is missing |

## Left out

- Tenants: every table is modelled for one tenant, because all queries and keys carry the tenant id.
- The JSON Schema engine: which documents a schema accepts and which schemas may be published are parameters (`Requests.SchemaRules`).
- SQL text and the search by ILIKE: the filter of a listing is an arbitrary predicate.
- Waits and deadlocks on unique keys: these constraints are met when a transaction commits, at which point all its rows appear together. Waits on rows, by locks, foreign keys and cascades, are modelled.
- Deadlocks.CirclesAre: a creation asks for the family and then the revision, a deletion for the family, its revisions, the entities that forbid it, and the draft; other orders of a database's own checks are not modelled, nor how it picks the transaction that it aborts to end a circle.
- UUIDs and the event id: ids are numbers drawn fresh and never twice; that two versions never share an event id depends on SHA-1.
- Encoding of cursors in base64 and JSON, and the refusal of a malformed one: a cursor is its time and id.
- Encoding of documents as JSON bytes: documents are compared as values, with a number kept as its printed text.
- Sharing of nested maps between a document and its flat form: map values are immutable here.
- Text.ToLower: lowers ASCII letters and the two other characters that Go lowers into ASCII; other letters keep their case, which no comparison with a known source name can notice.
- Two unknown sources that differ only in the case of non-ASCII letters: the code treats them as one source, the model as two.
- SourceSync.NothingIsSkipped: holds for a source that keeps its records in a fixed order; a source that reorders them is outside the model.
- OutboxWorker.DeliveredAtLeastOnce: holds for one attempt limit throughout a run; workers with different limits are not modelled.
- StoredHistories.VersionsNeverWeaken: for runs of regular operations, which every caller can check beforehand; irregular ones lose paths, as `AuthorityMerge.UpdateStoresEveryPath` and `History.ResolutionWritesThePath` say exactly.
- History.RunsConverge: for incoming documents that contribute no path with two different values; with such a document, even one update gives different results for different iteration orders.
- Schema validity after an update: the code does not validate updates, so nothing is claimed.
- The rendering of a profile's preview, the shortening of publication errors, lag metrics, audit rows, idempotency keys, logging and the HTTP and authentication layers: pass-through or display.
- The moment at which a call of the publisher times out, and Redis keys: a call ends with an answer or an error, and after an error the message may have been accepted or not.
