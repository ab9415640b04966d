# Schema registry: a verified model

A Dafny model of a Confluent-compatible schema registry written in Rust, and
proofs about it. `dafny verify dfyconfig.toml` checks everything.

## What is modelled

**The registry as a transactional state machine.** Each verb turns a view of
the registry into a plan (rows to write, events to log) or refuses
(`Verbs.dfy`; the loops behind it in `Planning.dfy`). The engine gates the
plan by mode, writes it as one batch and publishes it to an index that is
updated in place (`Engine.dfy`, `Index.dfy`). State lives twice, as rows
(`Store.dfy`) and as that index (`Snapshot.dfy`). `Agreement.dfy` says when
the two agree and that every write keeps it so, and `Loading.dfy` rebuilds the
index from the rows. `Effects.dfy` computes what each list of writes does to a
context, `Moves.dfy` and `Steps.dfy` reduce every verb to one of a few moves,
and the invariants are proved on the moves, over every run (`Registry.dfy`):

- index and rows answer every query alike, bodies of held ids are stored,
  content under a held id never changes, ids are never reused (`Registry.dfy`);
- exactly when every body has a holder (`Reclamation.dfy`); one id per content
  (`Deduplication.dfy`, exactly until 2^31); transitive compatibility levels hold between all live
  versions (`Compatibility.dfy`); the reference index is complete and guards
  every delete (`References.dfy`);
- inputs for which a promise fails (`Witnesses.dfy`);
- what each verb leaves row by row, and that the log tells the whole version
  table (`Outcomes.dfy`).

**Parallel writers.** `Concurrency.dfy` is the locking protocol as interleaved
steps of any number of threads. A verb about a context reads and writes that
context only (`Locality.dfy`, `Confinement.dfy`), so every interleaving leaves
on disk and in the log (`Log.dfy`) what the same commands leave one at a time
in commit order, and the published snapshot catches up in any order.

**The Avro compatibility check.** `AvroChecker.dfy` is the memoised, mutually
recursive check as functions, `AvroCheckerObject.dfy` the same on a mutable
memo and path. `AvroResolution.dfy` defines compatibility without it, as the
greatest relation closed under the resolution rules. The check never rejects a
related pair; it is exact when the reader's unions leave no choice between two
records (`AvroExactness.dfy`) or when the named types of one side do not
recurse (`AvroNonRecursive.dfy`); and it is not exact in general
(`AvroCounterexample.dfy`). `AvroReader.dfy`
reads values by the "Schema Resolution" section of the Apache Avro 1.11
Specification and never fails on a related pair.

**Exporters** (`Exporter.dfy`), **dump and restore** (`Backup.dfy`,
`Restore.dfy`), and four algorithms: Java's hash order (`JavaOrder.dfy`), the
glob matcher (`Glob.dfy`), the restartable format migration (`Migration.dfy`)
and the row keys (`Keys.dfy`).

## How the model stands for the program

- The store is a map per table with atomic batches. Contexts partition it as
  the keys do.
- A content hash is collision-free, so a fingerprint is the content it hashes.
- Parsing, canonical text, metadata merging, `can_lookup` and `can_read` are
  parameters (`Env`) of the registry model. Stored text being a fixed point of
  canonicalisation is a condition of the restore theorem only.
- Ids and versions are naturals; the cast of an id to a signed 32-bit integer
  on the way through a registration is modelled (`AsI32`).
- Time and guids are parameters of a command. Fields that only shape an answer
  or a message are left out.

## Where code and comments differ, and what is not so in general

- The comment at src/store.rs:587-589 promises that content registered again
  after its body was reclaimed gets its old id back. `hash_lookup` ignores an
  id without uses, so the code gives a new one
  (`Witnesses.ReclaimedIdIsNotReturned`), after every run
  (`Deduplication.ReclaimedContentGetsNewId`), and a new id is given exactly if
  no id below 2^31 holds the content (`Deduplication.TakesNewIdIff`).
- The Avro check accepts some recursive schemas with a reader union that do
  not resolve: a verdict reached while an outer pair is still assumed is kept
  in the memo after that assumption has failed
  (`AvroCounterexample.AcceptsUnresolvable`).
- A reader by the specification can fail on a resolvable pair when two branches
  of its union share an unqualified name (`AvroReader.UntidyUnionFails`).
- The glob matcher misses texts of every pattern that has a star and does not
  end in one (`Glob.ClosedPatternMissesText`).
- A mode change that purges several subjects at once leaves the body of an id
  they share behind: only uses by the same subject are excused at
  src/registry/mod.rs:536-539 (`Reclamation.SharedBodyStaysBehind`).
- Content held under an id of 2^31 or more gets a second id when it is
  registered again, because of the cast at src/mutations/register_schema.rs:99
  (`Witnesses.HighContentIsSplit`).
- An exporter deleted and created again under its name while the worker is
  between the first event and its cursor can skip that event
  (`Exporter.RecreatedExporterSkips`, exactly when in `RecreatedProgressIff`).
- A setting for a subject in a context whose name holds a zero byte does not
  read back as itself (`Keys.ScopeKeyRoundTripIff`). Requests with control
  characters in the name are refused; only a dump given to a restore gets past.
- A restored subject with a live version keeps the `normalize: false` it was
  imported with if its configuration did not say (`Witnesses.NormalizeIsSwitchedOff`,
  exactly when in `Restore.RoundTrip`).

## Model

| member | source | states |
|---|---|---|
| `AvroChecker.Get` | src/schema/avro.rs:606-632 | the memoised check terminates on every pair of schemas, recursive ones included: pairs of names not yet in the memo, then combined size, go down at every call; what was remembered is left alone and what is added is finished |
| `AvroChecker.Calc` | src/schema/avro.rs:672-793 | the same for one pair of schemas: the measure goes through reference lowering, fields and union branches |
| `AvroCheckerObject.CheckerObject.GetMessages` | src/schema/avro.rs:606-632 | on a memo updated in place and a path that is pushed and popped: the messages and the memo of the function, and the path as it was |
| `AvroCheckerObject.CheckerObject.CalcMessages` | src/schema/avro.rs:672-793 | every pair of kinds, in the order the code tries them |
| `AvroCheckerObject.CheckerObject.FieldMessages` | src/schema/avro.rs:722-757 | the loop over a reader record's fields, with defaults and the enum oddity |
| `AvroCheckerObject.CheckerObject.BothUnions` | src/schema/avro.rs:758-768 | both sides unions: one message for every writer branch that no reader branch takes |
| `AvroCheckerObject.CheckerObject.WriterUnion` | src/schema/avro.rs:774-780 | a writer union alone: the messages of all its branches |
| `AvroCheckerObject.CheckerObject.ReaderUnion` | src/schema/avro.rs:783-790 | a reader union alone: true exactly when a branch takes the writer, and the search stops there |
| `AvroCheckerObject.CanReadMessages` | src/schema/avro.rs:796-799 | a fresh checker gives the messages of `CanRead` |
| `AvroResolution.GreatestIsClosed` | src/schema/avro.rs:672-793 | the union of all relations closed under the resolution rules is itself closed |
| `AvroResolution.GreatestFolds` | src/schema/avro.rs:672-793 | and whatever one rule derives from it is in it: it is the greatest fixed point |
| `AvroResolution.CanReadAcceptsResolvable` | src/schema/avro.rs:606-793 | a pair in the greatest relation is never rejected, whatever its recursion |
| `AvroResolution.EverySchemaReadsItself` | src/schema/avro.rs:606-793 | every closed schema reads itself |
| `AvroExactness.ExactWithSimpleUnions` | src/schema/avro.rs:606-793 | the verdict is the greatest relation, both ways and whatever recursion, for readers whose unions hold at most one record, one array and one map and no union: lists and trees are among them |
| `AvroExactness.ExactWithoutReaderUnions` | src/schema/avro.rs:606-793 | in particular with no unions on the reader's side |
| `AvroNonRecursive.ExactWithoutRecursion` | src/schema/avro.rs:606-793 | and so it is when the named types of either side do not recurse, whatever the unions |
| `AvroCounterexample.AcceptsUnresolvable` | src/schema/avro.rs:612-627 | a family of recursive schemas with a reader union that the memo makes the check accept although they do not resolve |
| `AvroCounterexample.TheTrapExists` | src/schema/avro.rs:612-627 | a member of that family |
| `AvroReader.ReaderSucceeds` | src/schema/avro.rs:541-549 | a reader of values after the "Schema Resolution" section of the Apache Avro 1.11 Specification succeeds on every value of the writer's schema, for every pair in the greatest relation, and gives a value of the reader's schema |
| `AvroReader.CompatibleDataIsReadable` | src/schema/avro.rs:796-799 | where the check is exact, no messages means all data can be read |
| `AvroReader.RelatedMatches` | src/schema/avro.rs:672-793 | what resolves also matches in the specification's shallow sense |
| `AvroReader.FirstMatchResolves` | src/schema/avro.rs:783-790 | in a union no writer type matches twice, the first match is a branch that resolves |
| `AvroReader.UntidyUnionFails` | src/schema/avro.rs:594-603 | two union branches with one unqualified name: resolvable, and a reader by the book fails |
| `Glob.Matches` | src/authz.rs:113-138 | the greedy loop decides `Accepts` |
| `Glob.AcceptsOnlyLanguage` | src/authz.rs:98-138 | what the matcher accepts is in the pattern's language, for every pattern |
| `Glob.AcceptsWholeLanguage` | src/authz.rs:98-138 | for patterns without a star or ending in one it accepts all of the language |
| `Glob.ClosedPatternMissesText` | src/authz.rs:113-138 | every other pattern misses a text of its language |
| `Glob.MatcherIsExactIff` | src/authz.rs:98-138 | the matcher is exact if and only if the pattern has no star or ends in one |
| `JavaOrder.OrderIsJavas` | src/schema/java_order.rs:48-91 | sorting by bucket gives the iteration order of a chained hash table with tail insertion and order-preserving splits, for every capacity, every sequence of insertions, and whether it doubles past three quarters or on reaching them |
| `JavaOrder.UnionOrderIsJavas` | src/schema/java_order.rs:121-133 | likewise for a set made from one map's keys and given another's |
| `JavaOrder.ConcurrentOrder` | src/schema/java_order.rs:102-118 | the loop gives the order of such a table of 16 buckets that doubles one insertion earlier |
| `JavaOrder.CollectionNeverResizes` | src/schema/java_order.rs:60-65 | a set made from a collection never doubles while it is filled, however the division rounds |
| `JavaOrder.MaskIsRemainder` | src/schema/java_order.rs:84-87 | masking with the capacity less one is the remainder |
| `JavaOrder.BitSplits` | src/schema/java_order.rs:5-9 | the bit a doubling adds decides between a bucket and its twin |
| `JavaOrder.JavaSet.InsertKey` | src/schema/java_order.rs:67-75 | insertion keeps first-insertion order and doubles past three quarters |
| `JavaOrder.JavaSet.ExtendWith` | src/schema/java_order.rs:77-81 | insertion one by one |
| `JavaOrder.JavaSet.FromCollection` | src/schema/java_order.rs:60-65 | the set of the items, at the capacity it was made with |
| `JavaOrder.JavaSet.InOrder` | src/schema/java_order.rs:84-91 | the buckets one after the other |
| `JavaOrder.SortByBucket` | src/schema/java_order.rs:84-91 | as a stable insertion sort by bucket number |
| `Migration.PhysicalStore.MigrateTable` | src/store.rs:264-290 | one column family in batches of 10 000, cut off after any number of them: every row is in exactly one place with its value; done exactly if the batches its rows take fit the budget, and otherwise the budget's worth of full batches has moved |
| `Migration.PhysicalStore.Migrate` | src/store.rs:257-299 | the batches still to write go down by the budget, to none at the least; finished exactly if none is left, and then every row has moved; the version row appears only then; a current store is left alone |
| `Migration.PhysicalStore.MigrateRepeatedly` | src/store.rs:257-299 | however often it is cut off and run again: it finishes exactly if the budgets together cover the batches that were to write |
| `Migration.PhysicalStore.RowsSuffice` | src/store.rs:264-290 | which are no more than the rows left and one |
| `Migration.ShiftFits` | src/store.rs:278-285 | one batch keeps every row in exactly one of its two places |
| `Migration.ShiftLeaves` | src/store.rs:278-285 | and takes exactly its rows off the list of those to move |
| `Migration.FinishedContents` | src/store.rs:250-299 | key by key, what a finished migration holds: each old row once under the prefix, reserved rows untouched, nothing else |
| `Migration.UntouchedFits` | src/store.rs:250-256 | a store with no prefixed key is at the start of the way |
| `Keys.VersionKeyRoundTripIff` | src/store.rs:112-135 | a version key decodes to what it was made from if and only if neither name holds a zero byte |
| `Keys.RefbyKeyRoundTripIff` | src/store.rs:112-138 | the same for an edge key, and its id |
| `Keys.ScopeKeyRoundTripIff` | src/store.rs:88-109 | a scope key decodes to its scope if and only if a subject's context holds no zero byte |
| `Keys.VersionsScanInOrder` | src/store.rs:130-138 | the versions of a subject sort by number |
| `Index.Search` | src/snapshot.rs:33-45 | bisection finds the version or the place it would go |
| `Index.SmallInsert` | src/snapshot.rs:33-39 | insertion into a sorted vector |
| `Index.SmallRemove` | src/snapshot.rs:41-45 | removal from it |
| `Index.SnapshotObject.PutVersion` | src/snapshot.rs:120-137 | a put in place, usages kept exact when the id changes |
| `Index.SnapshotObject.DeleteVersion` | src/snapshot.rs:138-160 | a delete in place, empty lists dropped |
| `Index.SnapshotObject.ApplyWrite` | src/snapshot.rs:112-200 | every write, in place, is the function of that write |
| `Index.Publish` | src/registry/mod.rs:343-373 | a copy with the batch applied, in order |
| `Snapshot.InsertFinds` | src/snapshot.rs:33-39 | after an insertion, a search finds the new record and every other one as before |
| `Snapshot.RemoveFinds` | src/snapshot.rs:41-45 | after a removal, everything but the removed version |
| `Agreement.ApplyAgreesOn` | src/snapshot.rs:112-200 | one write keeps an index that answers like the rows answering like the rows |
| `Agreement.PublishAgrees` | src/registry/mod.rs:343-373 | so does a whole batch whose deletes name the ids their versions hold |
| `Agreement.RepresentsDetermines` | src/snapshot.rs:202-258 | two indexes of the same rows give the same answer to every query |
| `Loading.Load` | src/store.rs:464-525 | the index rebuilt by scanning the tables answers every query as the rows do |
| `Loading.Restart` | src/store.rs:464-525 | after any run the rebuilt index answers every query as the live one |
| `Planning.Collector.Collect` | src/registry/schemas.rs:122-148 | the recursive walk that marks what it visited collects what `CollectRef` says, or fails as it does |
| `Planning.ResolveReferences` | src/registry/schemas.rs:81-114 | references made concrete, with everything they stand for |
| `Planning.CanonicalizeDraft` | src/registry/schemas.rs:39-53 | the canonical form of a draft, with its references resolved, or why there is none |
| `Planning.PopulateDraft` | src/registry/schemas.rs:226-259 | a draft filled from the last live version and merged with it |
| `Planning.PrepareDraft` | src/mutations/register_schema.rs:71-86 | the draft to register, populated unless it is imported, and its canonical form |
| `Planning.HasLiveReferrer` | src/registry/listings.rs:242-270 | true exactly when a live schema is listed as a referrer |
| `Planning.HardDeleteWrites` | src/registry/mod.rs:521-565 | the rows a hard delete removes: the version, and with the last holder its edges and its content |
| `Planning.PurgeWrites` | src/mutations/set_mode.rs:103-108 | the rows and events of a list of hard deletes, in order |
| `Planning.CompatCandidates` | src/registry/lookup.rs:178-199 | the live versions a registration is checked against, newest first |
| `Planning.CheckLevel` | src/schema/mod.rs:224-250 | all earlier schemas parsed first, then the newest failure ends it |
| `Planning.FindExisting` | src/mutations/register_schema.rs:101-113 | the first live version that already answers for the content |
| `Planning.CheckAgainstLive` | src/mutations/register_schema.rs:117-124 | whether the live versions of the group allow the schema at the level in force |
| `Planning.SettleDraft` | src/mutations/register_schema.rs:88-147 | what is there already, by content or by lookup, or the version and id to store under, or the refusal |
| `Planning.RegisterWrites` | src/mutations/register_schema.rs:149-207 | replacement, stale purge, body, counter, version and edges, and their events, in order |
| `Planning.RegisterDraft` | src/mutations/register_schema.rs:71-211 | the whole registration, put together from these loops |
| `Planning.DropSubjectPlan` | src/mutations/delete_subject.rs:44-98 | the first objection in version order, or the plan |
| `Planning.DropVersionPlan` | src/mutations/delete_subject_version.rs:46-99 | one version: not found, hidden already, referenced, not hidden first, or the plan, with the settings if no live version is left |
| `Planning.ChangeModePlan` | src/mutations/set_mode.rs:80-115 | refusals, the purge of what is in scope, and the mode |
| `Planning.PlanVerb` | src/mutations/mod.rs:68-92 | the plan of any verb, the four with loops by the methods above |
| `Verbs.HighestUse` | src/registry/schemas.rs:58-70 | the highest version of the subject among the uses of an id, or that it has none |
| `Steps.DecidedMoves` | src/engine.rs:54-117 | on every context, a decided verb leaves the context alone, hides versions, removes versions with only unheld bodies, or records a version; its deletes name the ids their versions hold |
| `Steps.SettledFacts` | src/mutations/register_schema.rs:86-147 | a registration stores under an id that is new or holds this very content; without import, under the next version number |
| `Registry.StepKeepsGood` | src/engine.rs:54-117 | a step keeps index and rows in agreement and every context sound |
| `Registry.RunKeepsGood` | src/engine.rs:54-117 | so does every run |
| `Registry.RunAnswersLikeRebuild` | src/snapshot.rs:112-258 | after any run, any index of the rows answers every query as the incrementally updated one |
| `Registry.HeldIdsHaveBodies` | src/registry/mod.rs:521-565 | in every reachable state each version row's id has a stored body: no delete ever frees a body that is still held |
| `Registry.HeldContentNeverChanges` | src/mutations/register_schema.rs:133-147 | as long as some version holds an id, its content stays the same |
| `Registry.IdsAreNeverReused` | src/mutations/register_schema.rs:182-185 | the counter of a context is above every id ever stored or held there, deleted ones included |
| `Engine.RegistryObject.Apply` | src/engine.rs:92-117 | loops filling a transaction, one durable batch, log numbers from the counter on, and a published copy: the committed state of the model |
| `Engine.RegistryObject.Execute` | src/engine.rs:54-89 | gate before or after the plan: refused with nothing changed, or the step of the model with its events logged |
| `Outcomes.RegisterLeaves` | src/mutations/register_schema.rs:149-190 | row by row: the new version, minus older soft-deleted ones of the subject with the same id, and nothing else |
| `Outcomes.DropSubjectLeaves` | src/mutations/delete_subject.rs:62-98 | row by row: all versions of the subject hidden, or gone, and nothing else |
| `Outcomes.DropVersionLeaves` | src/mutations/delete_subject_version.rs:47-99 | row by row, for a number or `latest`: the version named, hidden if it was live or gone if it was hidden, and nothing else; `latest` names the highest live version |
| `Outcomes.ChangeModeLeaves` | src/mutations/set_mode.rs:80-115 | row by row: an unforced switch to IMPORT removes exactly the rows in scope |
| `Outcomes.LogTellsVersions` | src/engine.rs:92-117 | the events of any run, played back from nothing, give id and flag of every version and no others |
| `Outcomes.OverrideFreezes` | src/modegate.rs:77-95 | under a registry-wide READONLY_OVERRIDE no run of other verbs than mode changes and context deletes changes or logs anything |
| `Reclamation.EveryBodyHasAHolderIff` | src/registry/mod.rs:521-565 | over a run, every stored body has a holder in every state passed if and only if no mode change that goes through and purges finds an id shared by several subjects, all of whose holders it takes |
| `Reclamation.StepReclaimsIff` | src/registry/mod.rs:536-556 | the same for one command; every other verb always frees what loses its last holder |
| `Reclamation.SharedBodyStaysBehind` | src/mutations/set_mode.rs:96-108 | a registry with one schema under two soft-deleted subjects: switching it to IMPORT leaves the body behind |
| `Witnesses.BodyIsLeftBehind` | src/mutations/set_mode.rs:96-108 | two registrations and two soft deletes lead an empty registry there, so a run of five commands ends with a body nobody holds |
| `Deduplication.RunIndexedIff` | src/mutations/register_schema.rs:88-100 | over a run without imports the fingerprint index maps the content of every held id to that id, in every state passed, if and only if no registration is of content held under an id of 2^31 or more |
| `Deduplication.StepIndexedIff` | src/mutations/register_schema.rs:168-182 | the same for one command |
| `Deduplication.ReusesHeldIdIff` | src/mutations/register_schema.rs:88-100 | a registration stores held content under the id that holds it if and only if that id is below 2^31 |
| `Deduplication.RunKeepsIndexed` | src/mutations/register_schema.rs:168-182 | in particular on every run that ends with the id counter at 2^31 or less |
| `Deduplication.ContentIsHeldOnce` | src/registry/schemas.rs:58-70 | so two held ids never carry the same content, and the index finds it |
| `Deduplication.HeldContentKeepsItsId` | src/mutations/register_schema.rs:88-100 | a version a registration adds with content that was held carries the id that held it, unless that id is 2^31 or more |
| `Deduplication.TakesNewIdIff` | src/registry/schemas.rs:58-70 | a registration without an id of its own takes the next id if and only if every id that holds its content is 2^31 or more; in particular when none does, reclaimed or never there |
| `Deduplication.ReclaimedContentGetsNewId` | src/store.rs:587-589 | over every run, imports included: content that nothing holds gets, when registered, the next id, and that is above every id ever stored or held, its own old one among them |
| `Witnesses.ReclaimedIdIsNotReturned` | src/store.rs:587-589 | registered, soft-deleted, deleted for good and registered again: id 1 at first, id 2 at last |
| `Witnesses.HighContentIsSplit` | src/mutations/register_schema.rs:99 | an import under 2^31 - 1 and a registration lead an empty registry to a schema under the id 2^31: registered again, its content is held under two ids |
| `Compatibility.RunKeepsChain` | src/mutations/register_schema.rs:117-131 | while the subject's registrations see a transitive level, every live version stays compatible with every older live one, through any mix of registrations, deletes and settings |
| `Compatibility.TransitiveLevelsHoldPairwise` | src/schema/mod.rs:224-250 | newer reads older for BACKWARD, older reads newer for FORWARD, both for FULL, from any reachable registry in which the subject has no versions, as long as its registrations see the level |
| `Compatibility.RegistrationChecks` | src/registry/lookup.rs:178-231 | what a registration that goes through has been checked against: every live version, all of them older |
| `References.RunKeepsLinked` | src/mutations/register_schema.rs:192-194 | with references inside their context, every held schema is listed by each version it refers to, over every run |
| `References.ReferencedVersionsSurvive` | src/registry/listings.rs:242-270 | so no delete and no purge hides or removes a version a live schema refers to |
| `Locality.DecidedByOwnContext` | src/registry/locks.rs:83-98 | a verb about a context decides the same on any two views that agree on that context and the registry-wide settings |
| `Locality.DecidedByEverything` | src/registry/locks.rs:83-92 | a verb about the registry decides the same on any two views that agree everywhere |
| `Confinement.DecidedWithin` | src/mutations/mod.rs:68-92 | a verb about a context writes rows of that context only |
| `Concurrency.Alone` | src/registry/locks.rs:83-98 | no two threads hold locks on the same context, whatever contexts share a stripe |
| `Concurrency.AlwaysInv` | src/engine.rs:54-117 | every interleaving of lock, view, plan, transaction, durable commit, publish, unlock and pruning keeps the invariant |
| `Concurrency.WritersSeeTheirContext` | src/registry/mod.rs:336-373 | a writer that has taken its view sees its context exactly as it is on disk |
| `Concurrency.SettledAnswersLikeRebuild` | src/registry/mod.rs:343-373 | with nothing between durable and published the snapshot answers as one rebuilt from disk, whatever order the publishes ran in |
| `Concurrency.CommitsAreSerial` | src/engine.rs:54-117 | rows and log are those of the same commands run one at a time in commit order, so what holds over runs holds under parallel writers |
| `Concurrency.LogIsExact` | src/store.rs:529-556 | the sequence numbers in the log are exactly [floor, log_seq), each with the event committed under it, in batch order |
| `Concurrency.HistoryTellsDisk` | src/store.rs:698-715 | the events committed so far, played back, give every version on disk |
| `Log.AppendKeeps` | src/store.rs:698-715 | a commit appends its events under the next numbers |
| `Log.PruneKeeps` | src/store.rs:404-413 | pruning removes exactly what is below the new floor |
| `Log.ReadLog` | src/store.rs:416-442 | a read gives consecutive events from the asked number, or the floor, on |
| `Exporter.AlwaysInv` | src/exporter.rs:198-266 | over every run of commits, exports, failures, crashes, pauses, resumes, resets, creations, deletions and prunes: the log holds the history from its floor on, what the worker holds is the log's, and what it sent is recorded for the exporter it picked |
| `Exporter.NothingIsSkippedIff` | src/exporter.rs:244-264 | over every run, everything below every cursor is covered in every state passed if and only if no cursor write meant for an earlier exporter of the same name goes through past an event the new one is about |
| `Exporter.NothingIsSkipped` | src/exporter.rs:244-264 | then a matching event below a cursor was replayed, or a bootstrap sent the state of a later log position |
| `Exporter.CalmNeverSkips` | src/registry/mod.rs:693-696 | the expected offset stops every such write if no exporter is created under the busy worker's name while the worker is at offset 0 |
| `Exporter.RecreatedProgressIff` | src/registry/mod.rs:693-696 | after its exporter is deleted and created again, the pending cursor write is right if and only if its offset is not 0 or the first event does not match |
| `Exporter.RecreatedFinishIff` | src/exporter.rs:226 | and the end of a bootstrap if and only if its offset is not 0 or nothing below it matches |
| `Exporter.RunSupplies` | src/exporter.rs:105-110 | over every run in which no operator resets, creates or deletes it, an exporter that is at or above the floor, and the floor about to be written, stays there |
| `Exporter.PruningNeverPasses` | src/exporter.rs:105-110 | a floor is chosen and, after anything else that leaves the exporter alone, written: a cursor that was at or above the floor still is |
| `Exporter.NeededEventsAreKept` | src/exporter.rs:105-110 | so whatever such an exporter has not replayed is in the log, unchanged |
| `Exporter.BelowFloorByOperator` | src/exporter.rs:204 | an exporter below the floor has been reset or created behind it, by the last thing an operator did to it |
| `Exporter.FloorFollowsSlowest` | src/exporter.rs:125-140 | the floor chosen is the lowest cursor, or the end of the log when there is none lower |
| `Exporter.StoppedStaysPut` | src/registry/mod.rs:684-702 | no worker step touches a paused or failed exporter |
| `Exporter.ProgressFitsIff` | src/exporter.rs:261-263 | the compare-and-set moves one cursor by one event, or nothing; it keeps everything covered exactly if it does not skip |
| `Exporter.RecreatedExporterSkips` | src/registry/mod.rs:693-696 | an exporter deleted and created again under its name between a replay and the cursor write skips the event |
| `Restore.DumpLocal` | src/backup.rs:500-557 | the dump lists every row of every subject of every context, oldest first, and no others, with the settings as they are read |
| `Restore.DumpSettings` | src/backup.rs:511-540 | the filled configuration and the mode of the registry, of every context and of every subject, each once |
| `Restore.Restorer.WriteVersion` | src/backup.rs:675-715 | the recursive walk writes every dependency before its referrer and never fails |
| `Restore.Restorer.ReplayDeletes` | src/backup.rs:633-641 | the soft deletes of a subject, replayed once all its versions are there |
| `Restore.Restorer.Replay` | src/backup.rs:598-673 | from an empty registry, or any on the way to the source, the restore ends with every row of the source, or stops at a refusal with no row changed or all restored; under a registry-wide READONLY_OVERRIDE no row changes |
| `Restore.Restorer.ReplaySettings` | src/backup.rs:645-668 | rows stay; configurations are cleared, merged and modes set and cleared scope by scope as the dump says |
| `Restore.RestoredConfig` | src/backup.rs:629-653 | a subject's configuration ends as dumped if and only if the dump says whether to normalize, or has no live version of the subject; otherwise it ends with normalize off and the rest as dumped |
| `Restore.RestoredWide` | src/backup.rs:620-662 | the settings of the registry and of contexts: the dumped configuration merged into what was there, the dumped mode, and where the dump has none, as they were |
| `Restore.RestoredSettings` | src/backup.rs:655-667 | a subject's mode is the dumped one or none |
| `Restore.RoundTrip` | src/backup.rs:500-715 | dump, restore into an empty registry: the same rows; restore again: still the same rows, whatever the modes; modes read as before, and so do the configurations of the registry and of contexts; a subject's configuration is as it was read if and only if there was none, it said whether to normalize, or the subject has no live version |
| `Witnesses.NormalizeIsSwitchedOff` | src/backup.rs:629-653 | a run of two commands, one live version and a configuration with a level only: dumped and restored, the subject is configured not to normalize |
| `Backup.ImportKeeps` | src/backup.rs:700-712 | one imported row: it is there, and nothing written before is lost |
| `Backup.DropRows` | src/backup.rs:633-641 | one replayed delete changes the flag of one row |

## Left out

- Cross-context references in the claims about referrers and parallel writers: an edge row does not say which context its referrer is in, so `References`, `Locality`, `Confinement` and `Concurrency` assume references stay inside their context.
- Deduplication.RunIndexedIff: leaves out runs with imports, where a content can be indexed under whichever id was imported last.
- Compatibility.RunKeepsChain: is about schemas without references, subjects without a compatibility group and registrations without an id of their own (imports are not checked).
- Exporter.NothingIsSkippedIff: leaves out changes of an exporter's subject filter and exporters installed with an offset of their own; the destination is not modelled beyond acknowledging an event or a bootstrap.
- Restore.RoundTrip: asks that stored schemas still resolve and are their own canonical text, that every referenced version is live and references are acyclic, and that ids and versions are below 2^31; a dump is keyed by parsed names, so the spelling of qualified names is not part of it. Subjects that are nothing but a setting, exporters and a dump restricted to a prefix are not part of it, and the settings come back as stated for registries in which no schema is registered under the name of a context.
- JavaOrder.OrderIsJavas: does not model treeified buckets or the string hash itself; a key comes with its spread hash.
- AvroReader.ReaderSucceeds: asks for tidy unions and valid defaults on the reader's side, uses reals for floating point and does not check that bytes are UTF-8.
- Migration.PhysicalStore.Migrate: visits the rows of a table in any order rather than in key order.
- Index.SnapshotObject.PutVersion: usages and referrers are sets here, not sorted vectors; `has_aliases` and the snapshot's own `log_seq` are not modelled.
- The ceiling of 2^32 on ids, versions and the id counter.
- Registration's answer without the lock, the shape of answers, and messages beyond their kind and place.
- The Avro text parser and renderer, and the JSON Schema and Protobuf checks.
- Caches of bodies and parsed schemas, aliases of subjects, qualified-name parsing, HTTP handlers, authorisation beyond the glob, metrics, the command line and the remote migration client: plumbing or easy members.
