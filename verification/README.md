# Foldbase: a model of the log, the fold, the query compiler and the live feed

Foldbase keeps an append-only event log per tenant, folds it into read-model tables, compiles client
queries to SQL, and streams appended events to subscribers. This project models those parts and proves
the properties they are built for. `dafny verify dfyconfig.toml` checks everything.

| part | files | main results |
|---|---|---|
| the log and appends | `EventLog`, `Store`, `StoreRaces` | every interleaving of appends writes what some order of whole appends would write; versions are 1..n; paging equals one read |
| the live feed | `Bus`, `Feed`, `FeedHypotheses`, `Sse`, `Transport` | in every run client and wire are exact iff no send passes over a wanted event; two hypotheses that ensure it, both needed; parsing is exact under any chunking |
| the fold | `Projector`, `Totals`, `Commute`, `UpsertStatement`, `LogTable`, `ReadModels`, `Registry`, `FoldRuns`, `Live`, `Overlap`, `App` | however commits, folds, rebuilds and redefinitions interleave, views equal a replay when folded in log order, or in any order when the events commute; exactly when two folds commute, when an overlap is harmless, when a rebuild fails, and when it keeps the log; totals have a closed form; the emitted statements, parsed back, are the fold; the index loses nothing |
| the query compiler | `Where`, `WhereMeaning`, `Policy`, `Query`, `QueryMeaning`, `Dialect`, `Sql` | the emitted text, parsed back and evaluated in three-valued logic, means the request; the tenant test stays top-level; placeholders line up in both dialects |
| keys and paths | `Binary64`, `Decimal`, `Paths`, `Text`, `Definitions`, `JsonValues` | accepted integer keys are exact and distinct, any accepted key is an integer nearest to its literal; the path grammar |
| credentials | `Credentials` | nothing expired is handed out, but for a manifest that lives under three nanoseconds; pooled connections close in time; boot is bounded |
| the authoring layer | `Authoring` | inference succeeds iff all feeds agree, in any order of the rules; emitted events cannot break inferred counters iff no step before the last is optional |

## How it is modelled

Values are datatypes; a table is a map from (tenant, id) to the columns a row has been given, an absent
column reading NULL. Objects that the source updates in place (the store, the database, the registry,
the bus and its subscribers, the stream clients, the credential connector) are classes, and each method
is proved equal to a function or step of the model about which the laws are then proved. Distributed
behaviour is a step system whose runs are arbitrary sequences of steps.

The feed needs two hypotheses, stated as predicates on runs and shown to be needed by runs that break
each of them. First, publishes follow globalSeq order: the publish loop of an append is outside its
commit, so two handlers can publish in the other order (`Feed.PublishesInOrder`; a single writer meets
it). Second, a session sends nothing from its buffer once that has overflowed: the `select` of the
session loop has no priority between the overflow signal and the buffer (`Feed.NothingAfterOver`).
Without them, what keeps the feed exact is that no send from the buffer passes over a wanted event
(`Feed.ExactIffNothingSkipped`).

Folds run outside the commit, so the folds of concurrent appends can leave log order, and a rebuild
reads the log before it writes. `FoldRuns` lets commits, single folds, failures, wipes, refolds and
redefinitions interleave freely. A view at rest equals the replay of the log if its folds follow the log
and every rebuild read just what no queued fold still brings, or, whatever the order of the folds, if any
two of the tenant's events commute under the definition. `Commute.Commutes` is that condition, a static
one on the definition and two events, and it is exact: two folds swapped leave a view that reads as the
log says if and only if it holds (`Overlap.SwapHarmlessIff`). `Overlap` also holds the runs that go wrong
without these and the exact condition on the event for each way a rebuild can overlap an append.

The database takes a number of statements and then refuses, so a call can be cut short between any two
of them; a save, a fold and a rebuild each say when they then fail and what is left.

The log is a table of the same database, and validation accepts its name for a projection's table. The
tables a fold or rebuild writes and the log are therefore one state: a rebuild keeps every log if and
only if the projection's table is not `events` (`LogTable.KeepsEveryLogIff`), and registering a
definition over `events` deletes the caller's log (`App.PutOverLogLosesIt`).

Where the code and its own comments differ the code is modelled. "Ordered and gap-free" holds under the
two hypotheses only. A manifest that fails validation counts as retryable at boot, like an outage. A key
of negative zero renders as `-0`. The placeholder rewriting is purely positional only while no policy
token is directly followed by a digit: `:auth_uid1` leaves `?1`, which SQLite reads as the first
argument, the tenant, and which Postgres gets as another number (`QueryMeaning.DigitAfterToken`).

## Assumptions

- The order of commits is the order of globalSeq, in SQLite and in Postgres.
- A projection's table is its own: not another projection's and not the log's (`App.Lists`). The code
  checks neither. `ReadModels.ApplyRule`, `ReadModels.RebuildProjection` and `App.Service.PutProjection`
  also say what happens over the log's table.
- No declared column is named `tenant`, `id` or `updated_at`.
- `Live` and `App` take appends, rebuilds and redefinitions one at a time; `FoldRuns` and `Overlap` do not.
- Policy text is an operator-written fragment without `?`; results that need its meaning ask that the
  small expression grammar reads it, the tenant result only that its parentheses match.
- Comparison operators other than the NULL tests are uninterpreted functions on non-null values.

## Model

| member | source | states |
|---|---|---|
| `Store.EventStore.Append` | go/internal/store/store.go:146-233 | a batch is appended whole or nothing changes; what is refused, in which order, and what the client is told, for every request |
| `Store.EventStore.InsertRows` | go/internal/store/store.go:184-232 | the insert loop adds exactly the rows, in order, with consecutive versions and sequence numbers, unless an id is taken |
| `Store.AppendKeepsLog` | go/internal/store/store.go:146-233 | an append keeps sequence order, unique ids, one type per stream and versions 1..n, and lengthens its stream by exactly its batch |
| `Store.MaxTypeIsTheType` | go/internal/store/store.go:157-160 | since a stream's events share one type, the text maximum the version query reads is that type |
| `Store.MaxVersionIsLength` | go/internal/store/store.go:157-167 | the version maximum is the number of events of the stream |
| `StoreRaces.CommitIsAtomicAppend` | go/internal/store/store.go:150-233 | a transaction whose read, inserts and commit were interleaved with others commits iff the same append running alone at that moment would go through, and then writes the same rows |
| `StoreRaces.VersionTaken` | go/internal/dialect/dialect.go:112-113 | if the stream has moved on, the unique index blocks the commit |
| `StoreRaces.EveryLogIsSerial` | go/internal/store/store.go:138-141 | in every reachable state of every run the log is sound, equals the winners run one after the other in whole, and no expected version of a stream has won twice |
| `StoreRaces.LogOnlyGrows` | go/internal/store/store.go:138-233 | in every run of appends an earlier log is a prefix of every later one |
| `StoreRaces.OneOfTwoWins` | go/internal/dialect/dialect.go:95-113 | of two first appends to one stream that both read version 0, exactly the first to commit wins |
| `EventLog.ReadLimit` | go/internal/httpapi/router.go:28-37 | the page size is within 1..10000 and is the one asked for when that is |
| `EventLog.PageThrough` | go/internal/store/store.go:268-279 | reading page by page from the last globalSeq, with any limits, terminates and yields exactly the unlimited read, for every tenant and category |
| `EventLog.PageAdvances` | go/internal/store/store.go:239-279 | the read after a page's last event is what the page left out |
| `EventLog.PageStream` | go/internal/store/store.go:247-254 | the same for one stream, paged by version |
| `Bus.Subscriber.Offer` | go/internal/bus/bus.go:66-72 | the non-blocking send: a full buffer keeps its contents, drops the event, and closes the overflow signal at most once |
| `Bus.SentSound` | go/internal/bus/bus.go:66-72 | queues stay within 256, the signal is up iff something was dropped, and until then consumed and queued are everything offered, in order |
| `Bus.Subscriber.Receive` | go/internal/httpapi/router.go:316 | taking from the buffer keeps that invariant |
| `Bus.EventBus.Subscribe` | go/internal/bus/bus.go:37-48 | the id is new for good; the new subscriber starts empty and is live; nobody else changes |
| `Bus.EventBus.Unsubscribe` | go/internal/bus/bus.go:50-59 | exactly that tenant's subscriber leaves, another tenant's id is left alone, and no empty tenant map is kept |
| `Bus.EventBus.Publish` | go/internal/bus/bus.go:63-74 | every live subscriber of the tenant is offered the event and no other is touched; each live subscriber has been offered exactly its tenant's publications since it began |
| `Bus.EventBus.Deliver` | go/internal/bus/bus.go:66-72 | the loop over one tenant's subscribers offers to each once, in any map order |
| `Feed.GapFree` | go/internal/httpapi/router.go:245-327 | in every run under the two hypotheses, with overflow, breaks, reconnects and restarts, the client has received exactly the wanted events between its start and its cursor, in order, none twice |
| `Feed.StepKeepsInv` | go/internal/httpapi/router.go:273-327 | every step of handlers, session and client keeps the feed invariant |
| `Feed.CatchUpKeeps` | go/internal/httpapi/router.go:292-302 | catch-up from the snapshot sends the next event of the range and nothing else |
| `Feed.TailKeeps` | go/internal/httpapi/router.go:316-324 | a tail step sends an event only right after the last one sent, and skips only overlap and other categories |
| `Feed.NothingBefore` | go/internal/httpapi/router.go:271-274 | subscribing before the snapshot covers every commit: nothing wanted lies between what was sent and the head of an intact buffer |
| `Feed.SendIsExactIff` | go/internal/httpapi/router.go:316-324 | without hypotheses: a send keeps the wire exact iff no wanted event lies between the last one sent and it |
| `Feed.StepIsExactIff` | go/internal/httpapi/router.go:273-327 | from an exact state every step of handlers, session and client leads to an exact state, but for a send over an older wanted event, which never does |
| `Feed.ExactIffNothingSkipped` | go/internal/httpapi/router.go:245-327 | for every run, with no hypotheses: client and wire are exact at each of its states iff none of its sends from the buffer passes over a wanted event |
| `Feed.HypothesesNeverSkip` | go/internal/httpapi/router.go:316-324 | under the two hypotheses no send does |
| `Feed.QuietMeansComplete` | go/internal/httpapi/router.go:245-250 | a live client with nothing on its way and no overflow has the whole log past its start |
| `Feed.ReconnectHeals` | go/internal/bus/bus.go:5-7 | from every state a fresh connection can re-read all that is missing |
| `Feed.SingleWriterPublishesInOrder` | go/internal/bus/bus.go:1-7 | if each batch is published before the next is committed, publishes follow globalSeq order |
| `FeedHypotheses.OrderIsNeeded` | go/internal/httpapi/router.go:220-222 | a run with two handlers publishing in the other order, quiet after overflow, skips a wanted event and loses it for good |
| `FeedHypotheses.QuietIsNeeded` | go/internal/httpapi/router.go:309-325 | a run with one handler, at the real buffer size, whose session sends after overflow skips a wanted event and loses it for good |
| `Sse.DrainAnytime` | clients/ts/src/client.ts:185-203 | draining the buffer early or late cuts the same frames and leaves the same rest |
| `Sse.TsClient.Chunk` | clients/ts/src/client.ts:184-203 | one read takes every complete frame out of the buffer and handles them in order |
| `Sse.TsClient.Connection` | clients/ts/src/client.ts:171-203 | over one connection the outcome depends on the text alone, not on its chunks |
| `Sse.PySubscribe` | clients/python/foldbase/client.py:183-195 | the generator yields what the text's frames hold, whatever the chunks |
| `Sse.FrameRoundTrip` | go/internal/httpapi/router.go:286-290 | each client reads back the sequence number and data of the frame the server printed; a comment is skipped |
| `Sse.CutShort` | clients/ts/src/client.ts:187-189 | a frame cut off before its blank line yields nothing |
| `Sse.AnyChunking` | go/internal/httpapi/router.go:286-315 | for every list of events and comments, every cut into chunks and every break: both clients get exactly the pairs of the whole frames, and the cursor is at the last whole one |
| `Transport.BrokenConnection` | clients/ts/src/client.ts:182-203 | a connection broken after k frames leaves the client in the state after k receive steps of the feed model, having called back with exactly those k events' numbers and data, in order |
| `JsonValues.PayloadPath` | go/internal/readmodel/projector.go:30-44 | the segment walk finds a value iff every step lands on a field |
| `JsonValues.LookupAppend` | go/internal/readmodel/projector.go:30-44 | a path resolves through its prefix, absent and null staying apart |
| `Paths.PathGrammar` | go/internal/readmodel/types.go:40-43 | a string is a payload path iff it prints a non-empty list of non-empty dot-free segments, and the split recovers that list |
| `Projector.FoldIsLocal` | go/internal/readmodel/projector.go:178-249 | a fold reads and writes rows of the event's tenant only |
| `Projector.FoldErrorIsDeterministic` | go/internal/readmodel/projector.go:178-220 | whether an event is foldable depends on the definition and the event, never on the table |
| `Projector.ReplayExtends` | go/internal/readmodel/projector.go:270-294 | a rebuild of one more event is one skip-or-apply step |
| `Projector.ReplayIsLocal` | go/internal/readmodel/projector.go:270-294 | a replay neither sees nor moves other tenants' rows |
| `Projector.RebuildForgetsThePast` | go/internal/readmodel/projector.go:270-294 | a rebuild's rows depend on definition and log only; other tenants' rows stay |
| `Projector.RebuildIdempotent` | go/internal/readmodel/projector.go:270-294 | a second rebuild changes nothing |
| `Projector.SkippedIsExact` | go/internal/readmodel/projector.go:281-292 | the skip count is the number of the tenant's unfoldable events |
| `Totals.CellIsTotal` | go/internal/readmodel/projector.go:91-249 | closed form: a row exists iff upserted since its last delete, and an inc-only cell is the sum of what was fed since then, NULL iff nothing was |
| `Totals.ColumnSumIsGrandTotal` | go/internal/readmodel/projector.go:91-249 | with no deletes the column's sum over all rows is the sum over all folded events |
| `Totals.CountersNeverFail` | go/internal/readmodel/projector.go:224-247 | pure counter columns never make the database refuse an increment |
| `Totals.OrderDoesNotMatter` | go/internal/readmodel/projector.go:91-249 | if rules only increment, replaying the same events in any order gives the same table and skip count |
| `Totals.OrderMattersForSet` | go/internal/readmodel/projector.go:224-236 | with an assigning rule two events in the other order give another table |
| `Totals.OrderMattersForDelete` | go/internal/readmodel/projector.go:190-193 | and so with a deleting rule |
| `Totals.OneIdentityScheme` | go/internal/readmodel/types.go:129-164 | for a valid definition, over any log, all row ids are stream ids or all are payload keys |
| `Totals.DeleteAddressesItsRow` | go/internal/readmodel/projector.go:117-193 | for a valid definition a delete removes the rows that upserts of its own identity wrote, no row that an upsert of another identity wrote, and nothing else |
| `Totals.MixedDeleteHitsAnother` | go/internal/readmodel/types.go:129-164 | with keyed and unkeyed rules mixed, which validation refuses, a delete removes another stream's row |
| `Totals.RowHasAuthor` | go/internal/readmodel/projector.go:178-249 | every row of a replay was written by some event's upsert |
| `UpsertStatement.LexStatement` | go/internal/readmodel/projector.go:228-243 | the emitted upsert text is made of exactly the tokens meant |
| `UpsertStatement.StatementReads` | go/internal/readmodel/projector.go:205-247 | parsed back, it inserts every column with the argument at its place and, on conflict of tenant and id, takes the set columns and adds an argument to each counter |
| `UpsertStatement.ArgumentsAlign` | go/internal/readmodel/projector.go:208-247 | the arguments, bound in position, land on the columns they were resolved for, for any column order |
| `UpsertStatement.StatementIsFold` | go/internal/readmodel/projector.go:205-247 | the parsed text run with the fold's arguments leaves the table the fold describes, and is refused iff the fold is |
| `UpsertStatement.StatementMarks` | go/internal/readmodel/projector.go:208-247 | as many `?` in the upsert text as arguments |
| `UpsertStatement.EnginesBindInPosition` | go/internal/dialect/dialect.go:30-50 | SQLite reading the text and Postgres reading it rewritten bind every argument in position |
| `UpsertStatement.DeleteRowIsFold` | go/internal/readmodel/projector.go:190-193 | the emitted DELETE, parsed back and evaluated, removes exactly the row the fold names |
| `UpsertStatement.DeleteTenantIsWipe` | go/internal/readmodel/projector.go:275-277 | the DELETE a rebuild starts with removes exactly the tenant's rows |
| `LogTable.RebuildKeepsLogIff` | go/internal/readmodel/projector.go:275-277 | the DELETE of a rebuild leaves a given log as it was iff the projection has a table of its own, or nothing of the tenant is in the log, or the database refuses |
| `LogTable.KeepsEveryLogIff` | go/main.go:54-60 | a rebuild keeps every sound log iff the projection's table is not the log's, on one connection with it |
| `LogTable.OthersKeepLog` | go/internal/dialect/dialect.go:95-114 | a log that has lost one tenant's events is still a sound log for the others |
| `ReadModels.ApplyRule` | go/internal/readmodel/projector.go:178-249 | the code of one fold, in whatever order it meets the columns, sends one statement iff the event is foldable and folds as specified, or leaves every table as it was; over the log's table only a delete goes through, and removes that event |
| `ReadModels.ApplyEvent` | go/internal/readmodel/projector.go:252-259 | folding into a list of projections succeeds iff every fold does and the database takes all their statements; when it stops, the folds before it stay and no others; it touches no other tenant |
| `ReadModels.FoldAllIsPointwise` | go/internal/readmodel/projector.go:252-259 | it succeeds iff every single fold would, and then each table is its own projection's fold |
| `ReadModels.FoldOrderIrrelevant` | go/internal/readmodel/registry.go:114-117 | two orders of the same projections give the same verdict and, on success, the same tables |
| `ReadModels.FoldSkipsOthers` | go/internal/readmodel/projector.go:178-182 | projections without a rule for the event can be left out |
| `ReadModels.RebuildProjection` | go/internal/readmodel/projector.go:270-294 | the rebuild loop, against a database that stops taking statements at any point of it, leaves the rows, the skip count and the answer of the specified rebuild within that budget; what it does to the log is specified too |
| `ReadModels.RebuildWithinBudget` | go/internal/readmodel/projector.go:270-294 | that rebuild fails iff some increment is refused or the budget is less than the wipe and one statement for each foldable event; otherwise it is the replay of the log; if it fails, the rows are untouched or those of the first events of the log |
| `ReadModels.RebuildTenant` | go/internal/readmodel/projector.go:298-308 | the projections are rebuilt one after the other, each clean but the last of a call that fails; it fails iff some replay does or the statements run out; otherwise the skips add up |
| `ReadModels.TrailRebuilds` | go/internal/readmodel/projector.go:298-308 | with a table each, a call that went through leaves every projection's table rebuilt |
| `Registry.Registry.Reload` | go/internal/readmodel/registry.go:44-96 | a reload makes memory agree with the stored rows |
| `Registry.Registry.SaveProjection` | go/internal/readmodel/registry.go:133-157 | an invalid definition changes nothing; a valid one is stored, and memory follows, iff its table can be made and the database takes every statement; otherwise the registered definitions stay and columns are only ever added |
| `Registry.Registry.EnsureTable` | go/internal/readmodel/registry.go:179-205 | creates the table or adds its missing columns; exactly when that succeeds, and no column is ever lost |
| `Registry.AddMissing` | go/internal/readmodel/registry.go:197-203 | one statement for each declared column the table has not got, while the database takes them |
| `Registry.Registry.ListProjections` | go/internal/readmodel/registry.go:104-112 | every registered projection once |
| `Registry.Registry.SavePolicy` | go/internal/readmodel/registry.go:159-177 | a policy is stored under its name, role and action, and memory follows, iff it is valid and the database takes the row; otherwise nothing changes |
| `Registry.Registry.DefsForEvent` | go/internal/readmodel/registry.go:114-117 | exactly the projections with a rule for the event type, once each |
| `Registry.Registry.GetPolicy` | go/internal/readmodel/registry.go:121-130 | the exact-role policy if there is one, else the `*` one, never another projection's |
| `Registry.BuildIndex` | go/internal/readmodel/registry.go:60-72 | the derived index lists each projection once under each of its event types and under no other |
| `Registry.ForeignKeys` | go/internal/readmodel/registry.go:121-130 | a looked-up name can hit another projection's policy iff it holds a space after an identifier |
| `Registry.IndexedFoldIsFullFold` | go/internal/readmodel/projector.go:252-259 | folding through the index equals folding into every projection |
| `Definitions.ValidateProjection` | go/internal/readmodel/types.go:114-170 | the validation loop accepts exactly the definitions of the schema, keyed and unkeyed rules never mixed |
| `Commute.FoldsCommuteIff` | go/internal/readmodel/projector.go:178-249 | on every table on which two events fold in both orders, the results read the same iff the events commute: they name different rows, or both delete the row, or neither does and for every column equal values are put, or a number is put and zero added, or nothing is put |
| `Commute.OrderIrrelevant` | go/internal/readmodel/projector.go:270-294 | if any two events of a log commute, replaying them in any order reads the same, with the same skip count, and no increment is ever refused |
| `Commute.IncrementsCommute` | go/internal/readmodel/projector.go:195-247 | rules that only increment commute |
| `FoldRuns.StepKeepsInv` | go/internal/httpapi/router.go:205-223 | commits, single folds, failures, wipes, refolds and redefinitions, in any order: a view that is not stale is the replay of what was folded into it |
| `FoldRuns.InOrderRunsAreFaithful` | go/internal/httpapi/router.go:205-217 | in every run whose folds follow the log and whose rebuilds read just what no queued fold still brings, whatever interleaves, a view untouched by failures and redefinitions since its last wipe is at every point the replay of a prefix of its tenant's log, and of the whole log when nothing is queued for it |
| `FoldRuns.AnyOrderIsFaithful` | go/internal/httpapi/router.go:209-217 | if any two of the tenant's events commute, a view at rest reads as the replay of the log whatever the order of the folds, when its rebuilds read just what no queued fold still brings |
| `FoldRuns.IncrementsInAnyOrder` | go/internal/httpapi/router.go:209-217 | if rules only increment, it equals the replay to the letter |
| `FoldRuns.NothingToSkip` | go/internal/httpapi/router.go:209-217 | a tenant whose appends since the projection was defined were all answered `projected: true` and whose folds are done has a log that a rebuild folds without skipping |
| `Live.StepRuns` | go/internal/httpapi/router.go:205-223 | a whole append, projected or not, a whole rebuild and a redefinition with its rebuild, clean or not, are runs of such steps in log order |
| `Live.RunIsFolds` | go/internal/httpapi/router.go:205-223 | and so is every run of them |
| `Live.ViewsFollowTheLog` | go/internal/httpapi/router.go:358-381 | at every point of every such run, a view untouched by failures and by redefinitions, its own tenant's or another's, since its last clean rebuild equals the replay of the log under the definition of the moment |
| `Live.LiveEqualsReplay` | go/internal/httpapi/router.go:209-217 | in every such run whose appends were all projected and rebuilds clean, with no redefinition, every table equals its rebuild, with nothing skipped |
| `Live.RebuildHeals` | go/internal/readmodel/projector.go:270-294 | a clean rebuild makes the view a function of definition and log, whatever it held |
| `Overlap.FoldIsNoOpIff` | go/internal/readmodel/projector.go:178-249 | a fold leaves every cell reading as it did iff there is nothing to do: no rule, no key, no such row to delete, an increment that does not resolve or cannot be added, or a row that holds it all and gets zeros |
| `Overlap.OverlapHarmlessIff` | go/internal/httpapi/router.go:415-437 | a rebuild that read the log before an append and wrote after its fold leaves a view that reads as the log says iff that event has nothing to do on the rebuilt rows |
| `Overlap.SecondFoldHarmlessIff` | go/internal/httpapi/router.go:205-217 | a rebuild that read the event and wrote before its live fold leaves such a view iff the event only deletes, assigns or adds zeros |
| `Overlap.SwapHarmlessIff` | go/internal/httpapi/router.go:209-217 | from any run that has folded a tenant's log in order: two handlers append x and then y and fold y first, nothing failing; the view at rest then reads as the replay of the log iff x and y commute |
| `Overlap.FoldOrderIsNeeded` | go/internal/httpapi/router.go:209-217 | a run in which two handlers fold in the other order leaves a view wrong for good, although nothing failed |
| `Overlap.OverlapLosesAnEvent` | go/internal/httpapi/router.go:415-437 | a run whose rebuild read too early loses a counted event |
| `Overlap.OverlapCountsTwice` | go/internal/httpapi/router.go:205-217 | a run whose rebuild read an event still to be folded counts it twice |
| `App.Service.Append` | go/internal/httpapi/router.go:187-223 | the handler commits, folds and publishes: log and bus grow by the same rows whatever the fold does, and the views take a step of the live-view model with the reported flag |
| `App.FoldRows` | go/internal/httpapi/router.go:210-217 | `projected` is true only if every event of the batch was folded into every projection |
| `App.PublishRows` | go/internal/httpapi/router.go:220-222 | the stored events are published once each, in order |
| `App.Service.PutProjection` | go/internal/httpapi/router.go:358-381 | exactly which definitions are saved; one that is not changes no view; a saved one rebuilds the caller's rows, wholly or as far as the database went, leaves other tenants' rows as an older definition left them, and is a redefinition step of the live-view model; over the log's table it deletes the caller's log instead |
| `App.Service.AdminRebuild` | go/internal/httpapi/router.go:415-448 | one rebuild step of the live-view model for each projection asked for, all or the named one, the last of them cut short if the request fails; what was rebuilt is faithful and the skips add up; an unknown name changes nothing; the log is never touched |
| `App.PutOverLogLosesIt` | go/internal/readmodel/types.go:114-120 | a definition that validation and table creation accept, with the log's name for its table and nothing else in it, deletes the caller's log and is answered without a failure or a skip |
| `App.TenantLogSuffices` | go/internal/httpapi/router.go:371-375 | reading only the tenant's events is enough for a rebuild |
| `App.Session.CatchUp` | go/internal/httpapi/router.go:292-302 | the catch-up loop sends the whole log past the cursor, in order |
| `App.Session.Take` | go/internal/httpapi/router.go:316-324 | the live loop's handling of one event is the feed model's |
| `App.CatchUpRefines` | go/internal/httpapi/router.go:292-302 | the feed model's catch-up, step by step, is the session's loop |
| `Where.CompileWhere` | go/internal/readmodel/query.go:128-210 | the compiler prints the filter it builds and passes that filter's operands in order, or rejects the tree |
| `Where.CompileGroup` | go/internal/readmodel/query.go:212-231 | groups join their parts' text and operands in order |
| `Where.CompileColumns` | go/internal/readmodel/query.go:143-206 | a leaf's columns and operators compile in sorted order |
| `WhereMeaning.BuildKeepsReading` | go/internal/readmodel/query.go:128-231 | the built filter holds of a row iff the plain two-valued reading of the tree does |
| `WhereMeaning.LexPrint` | go/internal/readmodel/query.go:128-231 | the emitted text is made of exactly the tokens meant |
| `WhereMeaning.ParseFilter` | go/internal/readmodel/query.go:128-231 | in any context the emitted text parses back to the filter: every fragment is atomic or parenthesised |
| `WhereMeaning.EvalFilter` | go/internal/readmodel/query.go:128-231 | its three-valued evaluation is TRUE iff the filter holds |
| `WhereMeaning.CompilationPreservesMeaning` | go/internal/readmodel/query.go:128-231 | for every accepted tree and every row, the text read back as SQL is TRUE iff the tree reads true |
| `WhereMeaning.TokensCount` | go/internal/readmodel/query.go:128-231 | the emitted text has one placeholder per operand |
| `Policy.ReplaceAuth` | go/internal/readmodel/query.go:101-124 | the cursor loop replaces exactly the auth tokens that resolve, collects their values in order and reports the ones that do not |
| `Policy.CompileUsing` | go/internal/readmodel/query.go:51-97 | a policy fragment is bound, denied or refused as specified |
| `Policy.UsingAligned` | go/internal/readmodel/query.go:51-124 | the k-th placeholder of a bound fragment stands where the k-th resolved token stood, and SQLite binds them so when no token touches a digit |
| `Policy.ComputeAllowed` | go/internal/readmodel/query.go:27-48 | the whitelist is id, updated_at and the declared columns, cut down by allow and deny |
| `Query.BuildQuery` | go/internal/readmodel/query.go:264-357 | the statement and arguments are those of the plan, and errors come in the source's order |
| `Query.ReadSelect` | go/internal/readmodel/query.go:266-283 | the select list is the requested allowed columns, or all of them sorted |
| `Query.ReadOrder` | go/internal/readmodel/query.go:307-331 | the sort list is the requested terms on allowed columns |
| `Query.Limit` | go/internal/readmodel/query.go:333-341 | the limit is never negative nor above the cap |
| `QueryMeaning.PlanStaysAllowed` | go/internal/readmodel/query.go:264-331 | only allowed columns are selected, filtered on or sorted by |
| `QueryMeaning.SelectsExactly` | go/internal/readmodel/query.go:264-357 | a row is selected iff it is the caller's tenant's, the policy is TRUE of it and the where tree reads true of it; either engine reads the clause so when no policy token touches a digit |
| `QueryMeaning.TrueAgreesWithFilter` | go/internal/readmodel/query.go:400-424 | whatever a boolean column holds, it reads back true iff the compiled filter `eq: true` selects the row, unless it holds the text "1" and the engine does not take that to equal the number |
| `QueryMeaning.PlaceholdersAlign` | go/internal/readmodel/query.go:284-355 | as many `?` in the statement as arguments: the clause's own, then limit and offset |
| `QueryMeaning.BothDialectsAgree` | go/internal/dialect/dialect.go:30-50 | SQLite reading the statement and Postgres reading it rewritten bind the same arguments iff no policy token is directly followed by a digit; then both bind in position |
| `QueryMeaning.DigitAfterToken` | go/internal/dialect/dialect.go:30-50 | under the policy `owner = :auth_uid1` they never agree, and SQLite compares the owner with the tenant |
| `QueryMeaning.TenantStaysTopLevel` | go/internal/readmodel/query.go:284-303 | whatever the client's tree and a policy text with matching parentheses, the tenant test is a top-level conjunct and no OR is top-level |
| `Dialect.Rewrite` | go/internal/dialect/dialect.go:33-50 | the byte loop turns the k-th `?` into `$k` and changes nothing else |
| `Dialect.RewriteFaithful` | go/internal/dialect/dialect.go:30-50 | for text without a dollar sign, SQLite's reading and Postgres's reading of the rewritten text bind the same arguments iff no placeholder is directly followed by a digit |
| `Sql.SqliteInPositionIff` | go/internal/dialect/dialect.go:30-35 | SQLite binds in position iff no `?` carries a number other than its place |
| `Binary64.AcceptedLiteralIsExact` | go/internal/readmodel/projector.go:156-171 | rounding any integer literal to a double and accepting it below 2^53 implies the double is the literal |
| `Binary64.AcceptedRange` | go/internal/readmodel/projector.go:156-171 | any number literal, with a fraction or not, arrives as a double inside the range iff it lies below 2^53 - 1/2 |
| `Binary64.AcceptedLiteralIsNearest` | go/internal/readmodel/projector.go:156-171 | the key of any accepted literal is an integer nearest to it: `9007199254740991.4` names the row of 9007199254740991 |
| `Binary64.FirstInexactInteger` | go/internal/readmodel/projector.go:163-166 | the bound cannot be raised: 2^53 + 1 rounds to another integer |
| `Binary64.RenderWholeInjective` | go/internal/readmodel/projector.go:156-171 | two accepted doubles that print alike are the same double, negative zero apart |
| `Binary64.DistinctLiteralsDistinctKeys` | go/internal/readmodel/projector.go:156-171 | distinct accepted integer literals never share a row |
| `Decimal.RenderRoundTrip` | go/internal/readmodel/projector.go:156-171 | decimal rendering is undone by parsing |
| `Decimal.NegativeZeroText` | go/internal/readmodel/projector.go:156-171 | no integer prints as `-0` |
| `Credentials.ResolvedIff` | go/internal/flectdb/flectdb.go:99-120 | a broker's answer is accepted iff it is an unexpired version 1 libsql database with a url that can carry its namespace, and is stamped on arrival |
| `Credentials.Connector.Current` | go/internal/flectdb/flectdb.go:196-214 | keeps, renews, falls back or gives up as specified, and holds what it returns |
| `Credentials.ReturnedIsUnexpired` | go/internal/flectdb/flectdb.go:194-214 | what `current` returns is unexpired when it looked, but for one that lives under three nanoseconds at the moment it expires |
| `Credentials.NotDueIsUnexpiredIff` | go/internal/flectdb/flectdb.go:123-125 | not due for renewal implies unexpired, at every moment, iff the manifest lives at least three nanoseconds |
| `Credentials.LifetimeFitsIff` | go/internal/flectdb/flectdb.go:127-132 | connections opened whenever renewal is not due close in time iff their lifetime fits in a third of the manifest's |
| `Credentials.ConnectionsCloseInTime` | go/internal/flectdb/flectdb.go:127-132 | a connection opened with a kept or fresh manifest of at least 3s and the first one's life closes by its expiry |
| `Credentials.FitsIff` | go/internal/flectdb/flectdb.go:130-132 | the exact condition: three seconds, and a quarter of the first life within a third of this one |
| `Credentials.FallbackMayOutlive` | go/internal/flectdb/flectdb.go:208-212 | the fallback after a failed renewal has no such promise |
| `Credentials.Open` | go/internal/flectdb/flectdb.go:240-262 | boot makes at most the configured attempts, stops at the first manifest, refusal or cancellation, and pauses as specified in between |
| `Credentials.NextPause` | go/internal/flectdb/flectdb.go:258 | the doubling pause has the closed form min(backoff * 2^k, 10s) |
| `Authoring.IncColType` | clients/python/foldbase/schema.py:203-223 | the walk to the leaf types an inc column by its leaf, through optional models, and refuses what is not a number |
| `Authoring.InferenceIff` | clients/python/foldbase/schema.py:180-187 | inference succeeds iff every open feed has a type and all feeds of a column agree; the result is then the declared columns and those types |
| `Authoring.InferenceOrderIrrelevant` | clients/python/foldbase/schema.py:236-291 | the same rules in any order define the same projection, or are refused alike |
| `Authoring.DefineProjection` | clients/python/foldbase/schema.py:236-291 | the loops compile the wire definition, or refuse it, as specified |
| `Authoring.IncPathSafeIff` | clients/python/foldbase/schema.py:203-223 | for an inferred inc path no payload the model admits makes the fold fail iff no field before the last is optional |
| `Authoring.EmittedEventsFold` | clients/python/foldbase/schema.py:303-330 | an event emitted through the typed client is unfoldable by a projection defined with such counters iff its rule's key does not resolve |

## Left out

- HTTP decoding, status codes, authentication, logging, heartbeats, flushing and the shape checks of the append body.
- JSON text: payloads are decoded trees, event data on the wire is any one-line text starting with a brace, and `JSON.parse` of the data is not modelled.
- Byte decoding: the stream parsers work on decoded text, so a chunk that splits a UTF-8 sequence is the decoder's business.
- Errors thrown by a subscriber's callback, which lose the event they were called with, since the cursor has already moved.
- SQL engines and drivers: the parsed statements are executed by a small map semantics; what SQLite does with text in a counter column is taken to be a refusal, as in Postgres.
- Column lists where one column is both set and incremented by a rule: the increment wins in the model.
- `updated_at`, `recordedAt`, metadata, actor, causation and correlation ids, generated ids, column types of the tables.
- Floating-point addition in totals is exact real addition; doubles matter only for keys.
- Limits and offsets at or beyond 2^63, and the conversion of result rows other than booleans.
- Keyword case: the expression grammar reads upper-case AND, OR, IN, IS, NOT and NULL only.
- Reads by correlation id, the version endpoint and reload over HTTP.
- Array and object operands in a where tree: the driver refuses the request, the model compares them as JSON text.
- Reads that fail: of the log before a rebuild, and of the stored definitions on a reload. Only statements of saves, folds and rebuilds are refused.
- Fields of a client model that are left out of its dump, or dumped by a custom serializer: `Authoring.Admits` takes every field to be dumped as declared, and such a field on an inferred inc path breaks the fold with nothing optional on it.
- Runs with a projection over the log's own table: one fold, one rebuild and one save over it are specified, not what follows.
- The TypeScript authoring layer: it mirrors the Python one, but an optional leaf may be absent from a payload, so it promises less.
- Regular expressions are hand-written predicates; the broker's HTTP call is an arbitrary answer.
- EventLog.PageStream: stated for streams whose versions are 1..n, which every append keeps.
- Authoring.EmittedEventsFold: a counter on a column declared by hand is covered when its path names a number, which the layer does not check there.
- Registry.Registry.SaveProjection: a database that fails the reload after it has stored the row is not modelled.
