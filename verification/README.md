# EPISTEMOS: a verified model of the store

EPISTEMOS keeps knowledge as a hash-chained ledger of events. Everything else is derived from the
ledger: the projected objects, the provenance index, the lexical index, the panel's time-travel view,
the search results, the context envelope, the event stream. This project models those parts in Dafny
and proves how they hang together: what every run of the engine keeps, and that each fast or derived
form gives what the plain form gives.

Where the code does something else than its documentation or the shape of a law suggests, the code is
modelled as it is. Such a law is then stated with the exact condition under which the code meets it, and
a concrete input on which it does not is proved beside it.

## How the files belong together

| Layer | Files |
|---|---|
| Entities, JSON view, projection | `Model`, `Projection`, `Scopes` |
| Chain, store, transactions, exports | `Ledger`, `Store`, `Transactions`, `Exports` |
| Public operations as check and commit steps | `Operations`, `Live`, `Runs`, `Serial`, `Commits`, `Effects` |
| Bitemporal facts | `Temporal`, `Lineage`, `FactBeliefs`, `Interleaving`, `Past`, `Confirmations` |
| The panel's time travel, and runs that part it from replay | `TimeTravel`, `ClaimStatus`, `PanelRuns` |
| Indexes and explain | `IndexHealth`, `ProvenanceIndex`, `References`, `LexicalIndex`, `Explain`, `ExplainRuns` |
| The engine with its indexes | `IndexedEngine`, `EngineRuns` |
| Searchable text and retrievers | `Text`, `Tfidf`, `Retrieval`, `IndexedRetrieval` |
| Context envelope | `Folding`, `Collapse`, `Context`, `Envelope` |
| Graph walks, tallies, stream | `Reach`, `Graph`, `Relations`, `StrayGrants`, `Focus`, `Belief`, `Governance`, `Stream` |
| Helpers: sorting, sums over sequences, picking from them | `Ranking`, `Tally`, `Selection` |

Classes stand for what the source updates in place: `Store.MemoryStore`, `ProvenanceIndex.Index`,
`LexicalIndex.Index` and, on top of these three, `IndexedEngine.Engine`. An index that the source leaves
out is one that is `Unavailable`; the transactions of the SQLite store put back what those of the
in-memory store do, rows of the indexes included. Loops of the source are methods, proved against a function or a
quantified statement. Records and objects are values, as they are JSON values in the source.

Two kinds of run are told apart. In an *interleaved* run the check and the commit of an operation are
separate steps of any number of threads, as the source opens its transaction only after its checks; a
check reads objects one at a time, and commits may fall between its reads. In a *serial* run each
operation is checked and committed before the next one, on a clock that does not go back. Each theorem
says which of the two it needs.

What a main operation computes is defined by functions, against which its loops are proved; and what these
functions mean is stated once more on the objects, records and results alone, without naming them: the
effect of each request (`Effects.Does`), the tree of an explanation (`Explain.Genealogy`), the winner of a
resolution (`Temporal.Wins`), the items of an envelope (`Envelope.Tells`), what is received, followed,
found, scored and counted. These statements are proved of the results.

The engine keeps, as ghost state, the *life* of each index: the steps it went through, each of them
faithful to what its methods do. An index's flag is *doubtful* when it may be healthy over rows that are
not exact. Doubt arises in three ways: a rebuild inside an outer transaction that was rolled back, a
replay that raised inside an outer transaction, and, for the lexical index, a `verify` that set the flag
back although a statement had failed since the tables were last cleared or rebuilt.

## What the proofs found

- An exception of an emission that is caught inside an outer transaction commits a record that can
  never be replayed (`Transactions.CaughtFailureBreaksReplay`). When failures reach the outermost
  block, the closed store is always the replay of its ledger.
- Two threads that both pass the check on an open fact both supersede it; the two replacements are
  then believed at the same time (`Interleaving.InterleavedReplacementsOverlap`). Lineages stay coherent
  if and only if every committed replacement finds its fact still open
  (`Interleaving.CoherentIffTimely`). Write-once fields hold under any interleaving.
- A call that passed its check fails to commit if and only if it changes a grant that another namespace
  of the tenant wrote last (`Commits.PendingCommits`): a revocation, or a placement, contradiction, merge
  or split that names a grant. One run shows the revocation (`Commits.RevocationFails`), and that for the
  same reason objects decompose by tenant and not by namespace (`Commits.NamespaceDecompositionFails`).
- `confirm` changes what `as_of` answers about an earlier instant
  (`Confirmations.ConfirmationReachesBack`), exactly when the fact competes for the answer, has a best
  rival of another value, and overtakes or falls behind it (`Confirmations.ConfirmationMovesIff`).
- The panel's scan prefers a later supersession of a claim to an earlier retraction, replay keeps the
  first closing. On any ledger that replays, an import included, a claim that is asserted once, as open,
  and closed with the status of each closing operation is shown with another status than it replays to
  if and only if its first closing record is a retraction and a later one a supersession (`ClaimStatus.OnceDiffersIff`; for claims asserted again,
  `ClaimStatus.ShownDiffersIff`). Three records that the engine accepts as an import show it
  (`ClaimStatus.LaterSupersessionDiffers`); on ledgers that the engine writes itself the two agree.
- The panel shows the links of a claim as replay keeps them exactly while there are at most 256 distinct
  ones (`TimeTravel.TimeTravelIsReplay`); a run of more attachments shows the difference
  (`PanelRuns.MoreLinksThanKept`). Entities made by a split are never shown
  (`TimeTravel.SplitEntitiesUnseen`).
- A scoped export is promised to import again. It does if and only if every object that an exported
  record changes was made by an exported record (`Exports.ScopedExportReplaysIff`), and so not when the
  caller may read just one of two contradicting facts (`Exports.HalfReadableContradiction`). Records that
  retract a claim, attach evidence to it or govern it are in no scoped export, so that every imported
  claim is open (`Exports.ImportedClaimsAreOpen`).
- A rebuild of an index inside an outer transaction that is rolled back leaves a healthy but inexact
  index (`IndexedEngine.Engine.RebuildThenRaise`), and a life of the provenance index from its birth comes
  to that (`IndexedEngine.RolledBackRunEndsHealthy`).
- The lexical index's `verify` does not notice two objects that share a row
  (`LexicalIndex.StaleEntryPassesVerify`), so that rebuilding the projection can set the flag back over
  tables that are not exact (`IndexedEngine.StaleRunEndsHealthy`). The tables are exact if and only if
  they pass `verify`, are injective and their rows carry their own object's labels.
- A search whose only constraint is the empty string is filtered by the scan and not by the index, and
  spaces and grants can be found by id through the index only
  (`IndexedRetrieval.EmptyConstraintDiffers`, `Retrieval.ControlObjectsDiffer`).
- Statement keys are joined with `|`: two statements share a key if and only if they are the same or one
  subject is the other followed by `|` and a text by which the predicates differ in turn
  (`Folding.KeysShared`, `Folding.KeysCollide`). A version that is still believed is folded if and only if
  history may be collapsed and some key has two current versions (`Folding.CurrentVersionFolded`).
- Evidence that a claim links as contradicting can be folded as a duplicate and then be delivered all the
  same, because it is pinned; that is exactly when a folded object is shown (`Envelope.Build`,
  `Envelope.PinnedCopyFolded`).
- An empty preset marker counts as a decision for `derive_belief` and not for the panel's counters
  (`Belief.AgreeIffPlain`), as after one call that asserts such a claim
  (`PanelRuns.EmptyMarkerCounts`); without preset markers the two agree (`Governance.PanelCountsBelief`).
- A graph walk fails, instead of leaving a node out, when it comes to expand a node that is not visible.
  While there are no more nodes within the hops than allowed it does so if and only if it starts out of
  scope, or from an unreadable object, or meets a grant of another namespace before its last step
  (`Graph.QueryGraph`, `Relations.StraysIff`). A run of five calls ends in such a grant
  (`StrayGrants.StrayedQuery`).
- Events that close or confirm a fact, record a contradiction, merge or split entities or revoke a
  grant never reach the event stream, although it has event kinds for some of them
  (`Stream.ConcernedIs`); the activity feed stops showing the newest events once more than 500 are
  visible (`Stream.ActivityIsNewest`, `PanelRuns.FeedMissesNewest`), and a limit of
  zero or less escapes its bound of 200 (`Stream.ActivityLength`).

## Model

| member | source | states |
|---|---|---|
| `Ledger.VerifyChain` | src/epistemos/ledger/__init__.py:156-196 | accepts exactly the chains (numbered 1..n, each hash recomputed, each link to the one before) that match the pinned count and head; a refusal names the first faulty record and its first fault |
| `Ledger.AppendKeepsChain` | src/epistemos/storage/ports.py:44-55 | sealing an event onto a chain gives a chain whose head is the new record |
| `Ledger.PrefixIsChain` | src/epistemos/ledger/__init__.py:156-196 | every prefix of a chain is a chain |
| `Ledger.Reseal` | src/epistemos/core/__init__.py:2117-2134 | records sealed again are a chain with exactly their events in order |
| `Exports.ScopedExport` | src/epistemos/core/__init__.py:2103-2134 | the export of a scope is a chain of exactly the events of the scope whose object the caller may read |
| `Exports.ScopedExportReplaysIff` | src/epistemos/core/__init__.py:2076-2078 | over a live ledger the export replays, and so imports again, if and only if every object that an exported record changes was made by an exported record |
| `Exports.ContradictionNeedsBoth` | src/epistemos/core/__init__.py:2108-2116 | with a contradiction whose other object, not an entity, is unreadable the export never replays |
| `Exports.HalfReadableContradiction` | src/epistemos/core/__init__.py:815-838 | a run: two contradicting facts of which the caller may read one |
| `Exports.ImportedClaimsAreOpen` | src/epistemos/core/__init__.py:2305-2313 | whoever imports a scoped export sees every claim open, so that a claim keeps its status exactly when it was never retracted |
| `Ledger.TamperEvident` | src/epistemos/ledger/__init__.py:120-196 | two chains with the same head are equal record by record in every field but `meta`, unless the hash collides on them |
| `Ledger.EditIsCaught` | src/epistemos/ledger/__init__.py:156-196 | exchanging one record breaks the chain or, for the last record, changes the pinned head |
| `Ledger.RemovalIsCaught` | src/epistemos/ledger/__init__.py:156-196 | removing records from the middle breaks the chain; cutting the tail leaves a chain with another head |
| `Effects.ServedDoes` | src/epistemos/core/__init__.py:350-481 | over served calls: each of the fourteen requests that passes its check does to the objects exactly what it asks for, field by field, and leaves everything else as it was (a revoked grant is no longer active, a superseding fact has the new value, a marker is the one of the decision); a request that does not pass changes nothing |
| `Effects.ServedWrites` | src/epistemos/core/__init__.py:303-317 | and it writes down what was asked, by whom and for whom, and what came of it |
| `Effects.RefusedChangesNothing` | src/epistemos/core/__init__.py:244-260 | a call that is not allowed, or does not find what its request names in the caller's scope, of the right kind and still open, changes nothing |
| `Store.ReplaySplits` | src/epistemos/core/__init__.py:350-420 | a ledger replays exactly when its first records replay and the events of the others apply in turn to the objects of the first, and it replays to what these events make of them |
| `Projection.ReplayGrows` | src/epistemos/core/__init__.py:350-420 | replay never removes an object |
| `Scopes.RecordSplits` | src/epistemos/core/__init__.py:334-348 | the edits of one record read and write only inside the record's own scope |
| `Scopes.DecompositionIffSeparated` | src/epistemos/core/__init__.py:334-481 | for any split of the scopes in two, both halves of the objects are the replays of their own records if and only if no id is put from both sides |
| `Live.TenantDecomposes` | src/epistemos/core/__init__.py:334-481 | in every live ledger a tenant's objects are the replay of that tenant's records alone |
| `Live.CreatorsTenant` | src/epistemos/core/__init__.py:334-348 | the tenant whose record creates an id owns the object ever after |
| `Live.ProperKeepsTidy` | src/epistemos/core/__init__.py:350-481 | every event that an operation emits keeps the invariants of the objects and what each object must keep |
| `Live.WriteOnce` | src/epistemos/core/__init__.py:359-407 | between any prefix of a live ledger and the whole, identity and creation fields stay, a closed fact keeps its end and status, a claim leaves `open` at most once |
| `Store.MemoryStore.Enter` | src/epistemos/storage/memory.py:40-49 | only the outermost block takes the snapshot |
| `Store.MemoryStore.Leave` | src/epistemos/storage/memory.py:50-62 | an exception at the outermost block restores the snapshot of ledger and objects; inner blocks restore nothing |
| `IndexedEngine.Engine.ApplyRecord` | src/epistemos/core/__init__.py:350-481 | indexes the record's references first, then writes edit by edit what the projection function says, re-indexing each object, and stops at the edit that raises; index failures change neither objects nor the outcome |
| `IndexedEngine.Engine.Emit` | src/epistemos/core/__init__.py:303-317 | appends the sealed event, then projects it; the record stays appended when the projection raises; both indexes' lives stay faithful |
| `IndexedEngine.Engine.Commit` | src/epistemos/core/__init__.py:303-317 | one operation's events take effect all together or not at all, rows of the indexes included, and no flag becomes doubtful |
| `IndexedEngine.Engine.RebuildProjection` | src/epistemos/core/__init__.py:2023-2041 | clears objects and both indexes, replays, checks and sets flags back: after success the objects are the replay, a healthy provenance index is exact, and a healthy lexical index is exact exactly when it is injective and labelled; it succeeds exactly when clearing the indexes raised nothing and the ledger replays, and at the outermost level failure changes neither ledger nor objects |
| `IndexedEngine.Engine.ImportEvents` | src/epistemos/core/__init__.py:2160-2201 | into an empty engine, accepts exactly the chains that replay, record for record; otherwise, at the outermost level, nothing changes |
| `IndexedEngine.Engine.ImportMigrated` | src/epistemos/core/__init__.py:2177-2214 | an export of an older schema is verified as received and its migrated events are sealed anew, all or none |
| `IndexedEngine.Engine.RebuildIndexes` | src/epistemos/core/__init__.py:2055-2061 | each index that is rebuilt without a failing statement is healthy, exact and beyond doubt |
| `IndexedEngine.Engine.RebuildThenRaise` | src/epistemos/index/provenance.py:180-204 | rebuilding a degraded provenance index inside a transaction that then raises brings its old rows back and leaves its flag healthy, and doubtful when these rows are not exact |
| `IndexedEngine.Engine.VerifyIndexes` | src/epistemos/core/__init__.py:2043-2053 | true exactly when both indexes pass their checks; a healthy one found wrong is degraded |
| `Store.ExtendedIsReplayed` | src/epistemos/storage/ports.py:44-55 | sealing events one by one keeps the chain and replays to what the transaction computed |
| `Transactions.ProjectionIsReplay` | src/epistemos/storage/memory.py:40-62 | in every state of any nesting, failing and catching, the ledger is a chain, and it replays to the objects exactly when it holds no record whose projection raised |
| `Transactions.ClosedStoreIsReplay` | src/epistemos/storage/memory.py:40-62 | when failures reach the outermost block, every closed state holds the replay of its ledger |
| `Transactions.CaughtFailureBreaksReplay` | src/epistemos/storage/memory.py:40-62 | catching a failed emission in an outer transaction commits an unreplayable record |
| `Operations.GrantIdSpace` | src/epistemos/core/__init__.py:2316-2318 | grant ids of equally long space ids are the same only for the same space |
| `Runs.ReadsMayDiffer` | src/epistemos/core/__init__.py:244-273 | whatever a check reads object by object, each at another state of the run, is something a check step may have seen |
| `Runs.RunInvariant` | src/epistemos/core/__init__.py:244-273 | in every interleaved run, whose checks may read objects at different instants, the ledger is a live chain, the objects are its replay, and every pending event still satisfies what its check established about the objects it names |
| `Runs.InterleavedWriteOnce` | src/epistemos/core/__init__.py:359-407 | under any interleaving of check and commit steps, closed facts and claims stay as they were closed, and records are numbered 1..n in a chain |
| `Runs.LedgerGrows` | src/epistemos/storage/ports.py:44-55 | in an interleaved run the ledger only grows |
| `Commits.PendingCommits` | src/epistemos/core/__init__.py:334-348 | in every interleaved run a checked call commits if and only if it changes no grant that another namespace of the tenant wrote last |
| `Commits.CheckedCallCommits` | src/epistemos/core/__init__.py:1410-1422 | on the objects its check saw a call commits, except exactly a revocation of a grant granted again in another namespace |
| `Commits.NamespaceDecompositionFails` | src/epistemos/core/__init__.py:1377-1422 | a run of two namespaces granting one space to one agent: the first namespace's records alone replay to a grant it no longer holds |
| `Commits.RevocationFails` | src/epistemos/core/__init__.py:1410-1422 | after that run the first namespace's revocation passes its check and cannot commit |
| `Lineage.CoherentLineageTiles` | src/epistemos/temporal/__init__.py:33-74 | at every instant from the root on, exactly one fact of a lineage is believed until its last fact is closed, and none after that |
| `Lineage.LastIsOpenOrRetracted` | src/epistemos/core/__init__.py:653-813 | the last fact of a coherent lineage is open or retracted: a superseded fact has a successor |
| `Lineage.LineageUnique` | src/epistemos/core/__init__.py:653-710 | a root has only one lineage |
| `Serial.LineagesTile` | src/epistemos/core/__init__.py:653-813 | in every serial run each fact lies in a lineage that tiles transaction time: every superseded fact has exactly one superseder, which begins when it ends, and from the root on exactly one fact is believed for ever or until the last one is retracted |
| `Interleaving.CoherentIffTimely` | src/epistemos/core/__init__.py:653-813 | in an interleaved run with ordered timestamps beliefs are coherent if and only if every committed replacement found its fact open; then all lineages tile transaction time |
| `Interleaving.InterleavedReplacementsOverlap` | src/epistemos/core/__init__.py:653-710 | two interleaved supersessions of one fact leave two replacements believed at once |
| `Temporal.AsOf` | src/epistemos/temporal/__init__.py:77-94 | keeps exactly the facts believed and valid as asked |
| `Temporal.CurrentWins` | src/epistemos/temporal/__init__.py:100-140 | the answer is the fact that holds at the asked instants and to which every other such fact gives way: first by the trust of its source, then by confidence, then by the later transaction time, then by id; no answer exactly when none holds or the winner says that the relation ended |
| `Temporal.TrustedSourceWins` | src/epistemos/core/__init__.py:879-903 | whatever its confidence, a fact never wins against one whose source, of its own scope, is trusted more |
| `Temporal.StringLessIff` | src/epistemos/temporal/__init__.py:113-116 | the order of ids: the first difference decides, and a prefix comes first |
| `Temporal.ResolveIsOrderFree` | src/epistemos/temporal/__init__.py:119-139 | the most current fact does not depend on the order in which facts are listed |
| `Past.PastIsStable` | src/epistemos/core/__init__.py:929-949 | the answer about an explicit past instant is unchanged by any later records of other operations than confirmations and changes of access |
| `Past.AnswerWins` | src/epistemos/core/__init__.py:929-949 | `as_of` answers with the value of the readable fact of the caller's scope about the subject and predicate that wins among those that hold at both instants |
| `Confirmations.ConfirmationMovesIff` | src/epistemos/core/__init__.py:840-876 | a confirmation leaves the answer about a past instant unchanged if and only if the fact does not compete for it, has no rival, has a best rival of the same value, or ranks on the same side of it before and after |
| `Confirmations.ConfirmationReachesBack` | src/epistemos/core/__init__.py:840-876 | a run in which a confirmation changes the answer about an earlier instant |
| `TimeTravel.AsOfState` | src/epistemos/api/panel.py:533-562 | one scan of the ledger collects what the records up to the instant say |
| `TimeTravel.CollectedIs` | src/epistemos/api/panel.py:533-562 | it collects exactly the objects that a record up to the instant makes, the claims that one retracts or supersedes and the facts that one ends |
| `TimeTravel.CollectedLinks` | src/epistemos/api/panel.py:533-562 | and for each claim the links of the records that attach to it, in order |
| `TimeTravel.FutureIsInvisible` | src/epistemos/api/panel.py:533-562 | later records never change what is shown |
| `TimeTravel.TimeTravelIsReplay` | src/epistemos/api/panel.py:339-384 | on live ledgers with ordered timestamps, shown claim statuses and `believed` flags are those of the replayed prefix, shown links are its links exactly while there are at most 256 distinct ones, and the objects that exist are those of the prefix except entities made by a split |
| `TimeTravel.ShownFactsAndClaims` | src/epistemos/api/panel.py:350-363 | the facts and claims shown at an instant are exactly those that the records up to then project |
| `TimeTravel.SplitEntitiesUnseen` | src/epistemos/api/panel.py:533-562 | an entity made by a split is projected and never shown |
| `ClaimStatus.ShownDiffersIff` | src/epistemos/api/panel.py:533-562 | on any ledger whose records up to an instant replay, and assert the claim open and close it as their operation says: the shown status differs from the replayed one if and only if the claim was closed and reopened by a later assertion, or was first closed by a retraction and is superseded by some record |
| `ClaimStatus.OnceDiffersIff` | src/epistemos/api/panel.py:533-562 | for a claim that is asserted once: if and only if its first closing record is a retraction and a later one a supersession |
| `ClaimStatus.LaterSupersessionDiffers` | src/epistemos/core/__init__.py:402-407 | a chain of three records, asserting, retracting and superseding a claim, that replays and so imports: the claim is retracted, and shown as superseded |
| `PanelRuns.MoreLinksThanKept` | src/epistemos/core/__init__.py:423-432 | a run of more than 256 attachments of distinct evidence to one claim, after which the shown links are not those the claim keeps |
| `Serial.ServedLedgerIsOrdered` | src/epistemos/core/__init__.py:303-317 | every serial run writes a live ledger whose timestamps do not decrease |
| `IndexHealth.HealthyIsExact` | src/epistemos/core/__init__.py:319-328 | in every faithful life of an index a healthy flag that is not doubtful means exact rows |
| `IndexedEngine.Engine.HealthyAreExact` | src/epistemos/core/__init__.py:2035-2041 | in every state of the engine, through failing statements, rollbacks, rebuilds and imports, each index that is healthy beyond doubt is exact |
| `IndexedEngine.Engine.CarefulAreExact` | src/epistemos/core/__init__.py:2023-2061 | when flags are set back only outside transactions and only if no statement had failed since the rows were cleared or rebuilt, healthy means exact outside transactions |
| `IndexedEngine.StaleRunEndsHealthy` | src/epistemos/core/__init__.py:2035-2038 | a faithful life of the lexical index that ends healthy and not exact, by way of a check after failing statements |
| `IndexHealth.CarefulIsCertain` | src/epistemos/index/fts.py:245-262 | careful lives end every transaction without doubt |
| `IndexedEngine.RolledBackRunEndsHealthy` | src/epistemos/index/provenance.py:180-204 | a life of the provenance index whose first write fails and whose rebuild is rolled back: no rows, a record that has some, and a healthy flag |
| `ProvenanceIndex.CollectLeaves` | src/epistemos/index/provenance.py:52-63 | adds exactly the id-shaped text leaves of a payload |
| `ProvenanceIndex.MentionedIffLeaf` | src/epistemos/provenance/__init__.py:25-38 | a payload mentions an id-shaped id exactly when the id is one of the indexed leaves |
| `ProvenanceIndex.RecordedIsExact` | src/epistemos/index/provenance.py:81-96 | recording a new ledger record keeps an exact index exact |
| `ProvenanceIndex.Index.Record` | src/epistemos/index/provenance.py:81-96 | either the rows of one record are replaced as a whole, or the index is degraded with some of them; rows of other records stay |
| `ProvenanceIndex.Index.Verify` | src/epistemos/index/provenance.py:159-178 | true exactly when the rows mirror the ledger; a healthy index found wrong is degraded |
| `ProvenanceIndex.Index.Rebuild` | src/epistemos/index/provenance.py:180-204 | exact and healthy, or degraded; then the rows are put back only if its transaction is the outermost one |
| `ProvenanceIndex.ExactFindsMentions` | src/epistemos/index/provenance.py:105-121 | an exact index finds, for an id-shaped id, exactly the records that mention it |
| `Explain.ActivityParity` | src/epistemos/provenance/__init__.py:52-78 | the indexed and the scanned activities are the same list |
| `Explain.SupersederParity` | src/epistemos/provenance/__init__.py:101-131 | the indexed and the scanned superseders are the same list if and only if the store lists them in the order in which they were asserted |
| `Explain.SupersederSets` | src/epistemos/provenance/__init__.py:101-131 | in any order, the two forms find the same superseders |
| `Explain.Explain` | src/epistemos/provenance/__init__.py:134-208 | while a healthy index is exact and superseders are listed as asserted: wherever the index fails half way, the whole tree (activities, superseders, source, recursion with the shared set of seen ids and the depth) is the one computed without an index; of the tree itself: every node walked to is missing, out of scope, elided or shown exactly when it must be (elided when its id was seen before in the order of the walk, or the depth is used up), a shown node has the fields of its object, the ids it was derived from and those it supersedes each in order in their own place, exactly the activities that mention it and exactly its superseders, and the ids seen afterwards are those seen before and those shown |
| `Explain.ExpandedOnce` | src/epistemos/provenance/__init__.py:163-165 | no id is shown in full twice in one tree |
| `References.ReferredAreMentioned` | src/epistemos/provenance/__init__.py:25-38 | the record of an object mentions every id that the object refers to |
| `References.ChangeMentions` | src/epistemos/provenance/__init__.py:25-38 | the record of a change mentions exactly the ids and texts that it carries |
| `EngineRuns.ExplainServed` | src/epistemos/core/__init__.py:1984-2007 | for the engine after any served calls, failing index statements, rollbacks, rebuilds and restored flags, with no further condition: the tree is the one computed without an index, and of the tree itself what `Explain.Explain` states |
| `EngineRuns.Serve` | src/epistemos/core/__init__.py:303-328 | serving one more call keeps ledger and objects those of the serial run, and the provenance index's flag beyond doubt; the objects become what the request asks for, or stay as they are |
| `EngineRuns.RebuildProjection` | src/epistemos/core/__init__.py:2023-2041 | rebuilding, checking and restoring leaves what was served as it is, and the flag beyond doubt; it succeeds exactly when clearing the indexes raised nothing |
| `EngineRuns.ImportServed` | src/epistemos/core/__init__.py:2145-2201 | importing the ledger that serving some calls wrote makes an empty engine one that has served them: it has that ledger and the objects of the run |
| `ExplainRuns.SerialViewIsUsable` | src/epistemos/core/__init__.py:1984-2007 | in every state of a serial run records are numbered, facts are recorded, and no fact has two superseders |
| `ExplainRuns.RunViewIsSound` | src/epistemos/core/__init__.py:1984-2007 | in every state of an interleaved run records are numbered and facts are recorded |
| `ExplainRuns.LiveFactsRecorded` | src/epistemos/provenance/__init__.py:101-131 | in a live ledger each fact is asserted by exactly one record of its scope, which carries the body it still has |
| `Text.QueryTerms` | src/epistemos/retrieval/__init__.py:188-197 | the first 64 distinct tokens of the query, although reading stops early |
| `Text.DistinctFirsts` | src/epistemos/retrieval/__init__.py:188-197 | the distinct tokens are those that come for the first time, in order |
| `Text.TextIs` | src/epistemos/index/text.py:132-156 | the text by which an object of each kind is found: which of its fields, in which order, joined by single blanks, empty ones left out |
| `Text.MatchTerms` | src/epistemos/index/text.py:158-175 | the index combines the same capped terms as the scan |
| `LexicalIndex.Index.Reindex` | src/epistemos/index/fts.py:58-94 | replaces one object's row, or leaves the tables as the statements before the failing one left them and the index degraded |
| `LexicalIndex.ReindexedIsExact` | src/epistemos/index/fts.py:58-94 | replacing one object's row keeps the tables the image of the objects |
| `LexicalIndex.CleanReplayIsExact` | src/epistemos/core/__init__.py:2025-2034 | re-indexing any objects one by one without a failing statement leaves exact tables |
| `LexicalIndex.Index.Verify` | src/epistemos/index/fts.py:208-243 | true exactly when ids, row counts and contents agree with the objects |
| `LexicalIndex.Index.Rebuild` | src/epistemos/index/fts.py:245-278 | from any tables, exact and healthy if no statement fails; otherwise degraded, and the tables are put back only if its transaction is the outermost one |
| `LexicalIndex.ExactIffVerified` | src/epistemos/index/fts.py:208-243 | the tables are exact if and only if `verify` would pass, no two objects share a row and rows carry their own labels |
| `LexicalIndex.StaleEntryPassesVerify` | src/epistemos/index/fts.py:58-100 | a replay with two failing statements after which `verify` passes and an object cannot be found |
| `Tfidf.DocumentFrequency` | src/epistemos/retrieval/__init__.py:241-249 | counts, for every term, the candidates that contain it |
| `Tfidf.Score` | src/epistemos/retrieval/__init__.py:268-276 | over the reals the score lies in [0,1), is positive exactly when a query term occurs in the document, and the clamp at 1 never takes effect; it is what the terms weigh together (frequency dampened below one, times rarity among the candidates) as a share of the most they could weigh |
| `Retrieval.ScoresArePositive` | src/epistemos/retrieval/__init__.py:64-93 | with ordinary weights and trust not below zero every candidate scores above zero |
| `Retrieval.DefaultScoresArePositive` | src/epistemos/retrieval/__init__.py:41-93 | so does every candidate under the default weights, with a lexical component not below zero |
| `Retrieval.NonlexicalMeasures` | src/epistemos/retrieval/__init__.py:64-93 | the exact part is the share of the asked values that a fact has, the recency halves in thirty days, authority is the trust of the source in scope, and a fact counts as current when it is believed and valid at the asked instants |
| `Retrieval.TotalIs` | src/epistemos/retrieval/__init__.py:182-186 | the score is the sum of the parts, each with its own weight |
| `Retrieval.ScanHitIs` | src/epistemos/retrieval/__init__.py:222-260 | what a scan hit is, in terms of the query and the object |
| `Retrieval.CutFalls` | src/epistemos/retrieval/__init__.py:264-265 | results come by falling score, and at the same score by falling id |
| `Retrieval.CutIsBest` | src/epistemos/retrieval/__init__.py:264-265 | what is returned is in order, is everything found up to the limit, and nothing left out is better |
| `Retrieval.ScanSearch` | src/epistemos/retrieval/__init__.py:212-265 | finds exactly the readable, admitted, structurally matching objects that share a term with the query, each once, with the components of its object, and returns the best of them up to the limit; the lexical part of each is its score among exactly the candidates |
| `Retrieval.ParityOfHits` | src/epistemos/retrieval/__init__.py:289-335 | scan hits are indexed hits; they are the same except exactly for queries without text whose only constraints are empty strings, on objects that do not meet them |
| `Retrieval.ControlObjectsDiffer` | src/epistemos/retrieval/__init__.py:301-317 | the scan never finds a space or grant, an unconstrained text search through the index does |
| `IndexedRetrieval.IndexSearch` | src/epistemos/index/fts.py:103-135 | the ids of the matching rows with their relevance scaled in proportion into (0,1], the best at 1 |
| `IndexedRetrieval.IndexedSearch` | src/epistemos/retrieval/__init__.py:282-347 | over exact tables finds only indexed hits, each once, and all of them when the matching rows fit the pool of 500; returns the best up to the limit; the lexical part of each is the relevance of its row as a share of that of the most relevant row |
| `IndexedRetrieval.SearchParity` | src/epistemos/retrieval/__init__.py:212-347 | for a comparable query with no more hits than its limit, or fewer results, the two retrievers return the same knowledge objects with equal components other than the lexical one |
| `IndexedRetrieval.Search` | src/epistemos/core/__init__.py:1888-1911 | over an index that is exact when healthy: whichever retriever serves, and also when the index raises, the uncut answer to a comparable query holds exactly the scan hits |
| `EngineRuns.SearchServed` | src/epistemos/core/__init__.py:1849-1911 | for the engine in any state in which the lexical flag is beyond doubt the uncut answer to a comparable query holds exactly the scan hits |
| `IndexedRetrieval.EmptyConstraintDiffers` | src/epistemos/retrieval/__init__.py:318-332 | an empty subject and no text: a fact found through the index and not by the scan |
| `Collapse.Bucket` | src/epistemos/context/builder.py:345-352 | groups objects by key in order, leaving those without a key |
| `Collapse.Collapse` | src/epistemos/context/builder.py:337-391 | every object is kept once or folded once, kept and saved tokens add up to the input, each group is what one bucket is reduced to, each canonical is kept, no contradiction is folded |
| `Collapse.Canonical` | src/epistemos/context/builder.py:356-358 | a current version is chosen whenever the statement has one |
| `Collapse.GroupIs` | src/epistemos/context/builder.py:355-391 | every group folds the objects of one key in order, behind the first current one of a history or else the first of the best scored, and names the sources of all of them |
| `Folding.KeysShared` | src/epistemos/context/builder.py:128-132 | two statements share a key if and only if kind and joined text agree: they are the same, or one subject is the other followed by the separator and a text that the other predicate begins with |
| `Folding.KeysCollide` | src/epistemos/context/builder.py:128-132 | two different statements with one key |
| `Folding.CurrentVersionFolded` | src/epistemos/context/builder.py:356-366 | a version that is still current is folded if and only if history may be collapsed and some key has two current versions |
| `Context.Contradictions` | src/epistemos/context/builder.py:316-334 | pins exactly the retrieved contradictions and the readable evidence that a retrieved claim links as contradicting or weakening |
| `Context.Pack` | src/epistemos/context/builder.py:410-427 | splits the items; drops nothing pinned or critical and nothing that would still fit; tokens are at most the effective budget plus what must be kept, and at most the larger of the two when every pinned item is critical |
| `Envelope.Build` | src/epistemos/context/builder.py:257-297 | everything retrieved is reachable or dropped, every contradiction is delivered whatever the budget, nothing but retrieved or pinned objects is delivered, a folded object is delivered exactly when it is pinned, sources are kept, `context_incomplete` holds exactly when history was folded or an item dropped; decisions, believed facts, open claims and evidence against something are delivered whatever the budget unless they are folded; the role of an item is fixed by the fields of its object, as are its kind, cost and references; items come in the order of roles and then of ids |
| `Context.HalfOfBudget` | src/epistemos/context/builder.py:410-427 | a continuation leaves half of the budget, cut to a whole number |
| `Envelope.PinnedCopyFolded` | src/epistemos/context/builder.py:316-391 | evidence that is folded as a duplicate and delivered because a claim links it as contradicting |
| `Envelope.Finalize` | src/epistemos/context/builder.py:429-452 | no contradiction is ever reported missing; reasons and token estimate are exact |
| `Reach.WithinIffWalk` | src/epistemos/core/__init__.py:1126-1149 | the set a breadth-first walk builds is the set of ends of walks of at most k steps |
| `Graph.Neighbors` | src/epistemos/core/__init__.py:1068-1104 | exactly the readable relations of the asked direction and type whose far end may be read |
| `Graph.AdjacentIff` | src/epistemos/core/__init__.py:1126-1145 | one step leads to the two ends of exactly the relations that are followed at a node |
| `Graph.QueryGraph` | src/epistemos/core/__init__.py:1106-1149 | untruncated: exactly the nodes within the hops and the relations at nearer nodes, each once; truncated exactly when there are more nodes than allowed; never more than the limit; it fails only when the start is out of scope or a node nearer than the hops is not visible, and then always when there are no more nodes than allowed; each edge tells the ends and the type of its relation |
| `Graph.ReachIsVisible` | src/epistemos/core/__init__.py:1106-1149 | over relations that join objects of the scope only visible nodes are reached, so that the walk never fails |
| `Relations.LiveViewClosed` | src/epistemos/core/__init__.py:1042-1066 | in live ledgers the relations of a scope join objects of the scope if and only if none ends in a grant that another namespace of the tenant wrote last |
| `Relations.StraysIff` | src/epistemos/core/__init__.py:1068-1149 | over the objects of a live ledger the walk meets what makes it fail if and only if it starts out of scope, or, with a step to make, from an unreadable object, or reaches a grant of another namespace before the last step |
| `StrayGrants.StrayedQuery` | src/epistemos/core/__init__.py:1042-1149 | a run: a space, a grant of it, an entity, a relation from the entity to the grant, the grant given again from another namespace; a reader of all of it who walks two hops from the entity gets nothing |
| `Focus.RestrictToFocus` | src/epistemos/api/panel.py:623-646 | keeps exactly the nodes within the given number of undirected edges of the focus, and the edges between them |
| `Belief.AgreeIffPlain` | src/epistemos/claims/belief.py:15-56 | the two derivations of a claim's state agree exactly when no empty marker decides |
| `Belief.BeliefIs` | src/epistemos/claims/belief.py:15-56 | the precedence: lifecycle, rejection, acceptance, one dispute or rejection in a review, one confirmation |
| `Belief.CountedAs` | src/epistemos/api/panel.py:594-610 | the panel's precedence, the same but for what counts as a decision |
| `Belief.CountIsSize` | src/epistemos/api/panel.py:115-147 | the counts are numbers of claims |
| `Belief.Counts` | src/epistemos/api/panel.py:115-147 | the single-pass counters are the numbers of claims that derive to each state |
| `Governance.PanelCountsBelief` | src/epistemos/core/__init__.py:411-421 | over any ledger without preset markers the panel counts exactly what belief derives |
| `PanelRuns.EmptyMarkerCounts` | src/epistemos/api/panel.py:594-610 | a run of one call, asserting a claim with a preset empty acceptance: derived as accepted, counted as proposed |
| `Belief.CountsIgnoreOrder` | src/epistemos/api/panel.py:121-131 | neither the order of claims nor that of reviews matters |
| `Stream.AuthorizedEvents` | src/epistemos/api/stream.py:53-89 | the envelopes of the first visible records after a number, at least one and up to the cap; which records are visible follows from the objects they concern and what the reader may see of them; each envelope tells number, operation, time and actor of its record and the object the record is about, and no record that may be received is skipped before the last one |
| `Stream.SeenIs` | src/epistemos/api/stream.py:53-89 | a record is seen exactly when it is of the reader's scope, its payload is a whole object, a placement, a claim's closing, attachment or governance, and the object it concerns exists and may be read |
| `Stream.ExactlyOnce` | src/epistemos/api/server.py:384-391 | over any polls of a growing ledger the events received are, in order, exactly the visible records up to where the reader resumes, and all of them once a poll finds no more than the cap |
| `Stream.ActivityIsNewest` | src/epistemos/api/panel.py:329-337 | for every limit of at least one the activity feed shows the newest events, as many as the smaller of the limit and 200, exactly while at most 500 are visible |
| `PanelRuns.FeedMissesNewest` | src/epistemos/api/panel.py:329-337 | a run of at least 250 attachments after which, whatever the limit of at least one, a reader of everything is not shown the newest events |
| `Stream.ActivityLength` | src/epistemos/api/panel.py:329-337 | how many events the feed shows for any limit: one of zero or less escapes the bound |
| `Stream.ConcernedIs` | src/epistemos/api/panel.py:44-60 | which object each kind of event concerns, and which events concern none |

## Left out

- SHA-256 and canonical JSON text: the hash is any function on structured values; freedom from
  collisions is assumed only on the two ledgers compared, and the genesis value may be any number.
- Clocks, ISO-8601 text and fresh ids: instants are integers, ids are chosen by the caller of an
  operation and have the shape the engine gives them.
- Floating point: confidence, trust and scores are reals, and scores are not rounded to six digits;
  of the logarithm only `ln 1 = 0` and monotonicity are used.
- Authorization, capabilities, policies and membership: reading is an arbitrary predicate, and the
  outcome of an authorization decision is a flag of the call.
- Input validation (lengths, types, JSON depth), the migration of an older schema itself, and imports with
  `verify=False`.
- SQLite and FTS5: tables are a set of pairs and two maps; a new row gets any unused number; a match is
  a shared term, its relevance any positive number; every statement may fail; index rows share the
  transaction of the store.
- Reopening a database, `ensure_built` and corruption from outside: index invariants hold within the
  lifetime of one engine.
- Crafted imports that reuse ids: statements about runs are about ledgers the engine produces.
- Enumerated values in the JSON view of a payload, which no object id can equal; metadata of a JSON
  type other than the one an operation writes; payloads that carry the keys of several operations.
- `merge_entities`: its choice and order of aliases are given by the caller.
- `explain_decision`, expansion handles, wire projections, labels, summaries and `why` texts, the
  temporal summary of an envelope and the panel's names for kinds of events.
- Intent classification of a query: whether history may be collapsed is a flag.
- Token estimates: the cost of an object is an arbitrary function.
- The panel's graph assembly around `Focus.RestrictToFocus`, its capped node set and edge labels.
- REST, panel HTTP and SSE sockets, MCP, SDK, user interface, demo, benchmarks.
- Past.PastIsStable: leaves the changes of spaces, grants and placements out beside confirmations,
  because they change who may read which fact.
