# SPM Cloud: a verified model

A Dafny model of the parts of SPM Cloud whose correctness no single function shows,
and proofs about all their inputs, runs and interleavings. `dafny verify dfyconfig.toml`
checks everything.

A database method holds the connection for one transaction that commits or rolls back,
so it is modelled as one step. The clock, random identifiers, audit inserts and calls
into other subsystems are parameters. A secret stands for its hash, which is taken to be
injective.

| files | what they model |
|---|---|
| `offline_tables`, `offline_transactions`, `offline_store` | the offline-identity tables, every transaction on them as a function, and the same transactions as statements that update tables in place and roll back |
| `offline_invariant`, `offline_history`, `offline_lapse`, `offline_quota`, `offline_discovery`, `offline_effects` | what holds in every reachable state and along every run, what discovery reports, and what each transaction gives its caller |
| `request_limiter` | the in-memory sliding-window limiter |
| `limiter`, `update_drain`, `gated_drain` | the concurrency limiter with its notifications, the drain of uploads and processing before an update, and the drain over the limiters themselves |
| `ordered_text`, `catalog_pages`, `catalog_revalidation`, `catalog_memory`, `catalog_linear`, `catalog_meaning` | catalog pages and cursors, the recheck of a cached page, the page cache, requests, writers and cache interleaved, and which assets a page shows |
| `rfc1321`, `offline_uuid` | MD5 as RFC 1321 states it, and the service's own loop |
| `sql_tokens`, `sql_placeholders`, `sql_statements` | placeholder rewriting for MySQL and statement splitting |
| `config_providers`, `config_publication` | provider reconciliation, and publication with a crash, a failed commit or an edit anywhere, while offline players are served |
| `account_links` | game identities, their owners and the links between web and Cloud accounts |
| `motion_timeline` | the motion lease of an entity |
| `outcomes`, `finite_sets` | shared results and set sizes |

Seven properties fail on some inputs. Each has a lemma with a concrete run and a lemma with
the exact condition:

- A statement that mixes numbered and bare placeholders can bind other values on MySQL than
  on SQLite (`MixedDiffers`, `NumberingsAgreeExactly`). No statement of the service mixes them.
- Linking a game profile to an account that is the web side of a link leaves the identity on
  the web side (`LinkStrandsExactly`). The game client's link does so with no interleaving,
  since it passes the authenticated account as it is (`src/game_auth.rs:201-208`); the browser
  flow does so when somebody connects the account between two of its stages
  (`StaleLinkStrands`, with the exact condition in `StagedFlowStrandsExactly`).
- A lapsed motion event is accepted again once another event came between
  (`LapsedEventReturnsAfterAnother`, `ReturnsExactly`).
- The motion handler reads its clock before it takes the lock (`src/entity_motion.rs:433-438`,
  where the rate limit guards against the same at `src/visual.rs:216`), so a reading from
  before the lapse continues an event that cleanup has already cleared, under another
  animation (`LateReadingContinues`, `SameEventExactly`, `EventKeepsAnimation`).
- A session that lapses between the two clock readings of one publish lives on
  (`LapsesAndLives`, `LapsingSurvivesExactly`).
- The request limiter reads its clock before it takes its lock, and a reading out of order
  lets a window be exceeded (`OutOfOrderExceeds`, `DecisionExactly`, with the bound that
  remains in `SkewedRunWithin` and what holds in order in `DecisionInOrder`).
- A database that commits but reports a failure is not always recovered
  (`LostReplyLeavesProvider`, `RecoveredExactly`).

## Model

| member | source | states |
|---|---|---|
| OfflineInvariant.ReachableSafe | src/offline_identity.rs:269-504 | in every state reached from a fresh installation the five tables agree: an active session exists, belongs to the identity, is unrevoked, carries the current binding revision and an unrevoked key of the current generation, and its account is approved while the feature is on; unrevoked sessions are active ones; appearances name the active session and both current revisions |
| OfflineInvariant.RunKeepsInv | src/offline_identity.rs:269-647 | every interleaving of transactions, two-transaction requests included, keeps the invariant |
| OfflineInvariant.RetireKeepsInv | src/offline_authorization.rs:229-277 | ending the sessions of any set of identities keeps the invariant |
| OfflineInvariant.RotateIsRevokeThenKey | src/offline_identity.rs:366-403 | rotating is revoking the identity and then adding a key of the next generation |
| OfflineInvariant.WithdrawIsRetire | src/offline_player.rs:225-251 | withdrawing, which updates single rows, equals ending the sessions of its identity |
| OfflineInvariant.ActivateKeepsInv | src/offline_identity.rs:435-504 | an activation, which replaces the previous session, keeps the invariant |
| OfflineInvariant.UnapprovedInactive | src/offline_authorization.rs:39-50 | an account that is not approved owns no active session |
| OfflineHistory.AuthorizeExactly | src/offline_player.rs:97-137 | in a safe state a session is accepted if and only if its account is active, owns it and presents its token, it is the identity's active one and it has not expired |
| OfflineHistory.StepEnds | src/offline_identity.rs:472-485 | one step ends a live session exactly when it is an accepted operation that ends it or its expiry has passed, and never revives an ended one |
| OfflineHistory.EndedForever | src/offline_player.rs:97-137 | no run brings back a session that was replaced, rotated away, revoked, withdrawn, switched off or had lapsed |
| OfflineHistory.EndedIsInert | src/offline_player.rs:140-251 | at any later time a publish or withdraw through an ended session is refused and changes no table |
| OfflineHistory.PublishRenews | src/offline_player.rs:217-220 | an accepted publish counts the session's new expiry from its second reading of the clock |
| OfflineLapse.LapsesAndLives | src/offline_player.rs:129-220 | a run from a fresh installation in which a session is live at a publish's first reading, has lapsed at its second, and lives on |
| OfflineHistory.RunGrown | src/offline_player.rs:198-201 | identities and sessions are never deleted or reassigned, and generation, binding and appearance revisions never decrease |
| OfflineHistory.PublishCounts | src/offline_player.rs:198-216 | an accepted publish moves the appearance revision from the expected value to the next and stores a row that names session, binding and revision |
| OfflineHistory.PublishesOrdered | src/offline_player.rs:198-216 | of two publishes accepted for one identity in one run the later expected a strictly larger revision |
| OfflineHistory.ActivationCounts | src/offline_identity.rs:472-485 | an accepted activation expected the current binding revision and binds its session at the next |
| OfflineHistory.ActivationsOrdered | src/offline_identity.rs:472-485 | a session activated later is bound at a strictly larger revision than every earlier one of its identity |
| OfflineHistory.NotApprovedRefused | src/offline_authorization.rs:39-48 | issue, enroll, rotate, activate, publish and withdraw are refused to an account that is not approved |
| OfflineHistory.RevokedUntilApproved | src/offline_authorization.rs:195-277 | a revoked account obtains and uses nothing until an administrator approves it, even when a revocation slipped between the two transactions of a request |
| OfflineQuota.RunLimited | src/offline_identity.rs:236-267 | along every run no account owns more identities than the quota, or has more keys created in any hour or sessions in any minute than the settings allow |
| OfflineQuota.KeyInsertLimited | src/offline_identity.rs:236-267 | a key inserted after the count found room keeps every window within the limit |
| OfflineDiscovery.JoinIsPublishers | src/offline_player.rs:269-281 | the join returns the active session of exactly the identities that publish the entity |
| OfflineDiscovery.OneRowPerPublisher | src/offline_player.rs:269-281 | the join has one row for each identity whose unexpired active session claims the entity and whose account is not disabled |
| OfflineDiscovery.ReportedExactly | src/offline_player.rs:270-342 | an offline publisher is reported if and only if exactly one identity publishes and nothing verified took precedence, with its two revisions and its stored appearance if that is shown; AMBIGUOUS if and only if several do; the rest of an entry stays |
| OfflineDiscovery.NobodyWhileDisabled | src/offline_player.rs:264-268 | returning early while the feature is off loses no publisher |
| OfflineStore.Store.RequestAuthorization | src/offline_authorization.rs:51-98 | keeps the invariant; accepted if and only if the feature is on, the account exists and is not disabled, and a change is audited; returns the status it leaves, approved exactly when it was or when the mode is automatic and it is not revoked, and touches no other account |
| OfflineStore.Store.IssueKey | src/offline_identity.rs:339-364 | keeps the invariant; accepted if and only if the caller is approved, fewer keys than the limit were created in the last hour, the quota has room and the ids are new; then a new, silent identity of the caller holds the only key, and every older row stays; a refusal leaves nothing behind |
| OfflineStore.Store.EnrollDevice | src/offline_authorization.rs:99-177 | keeps the invariant; accepted if and only if the approved caller presents an unrevoked key of its own, which changes nothing, or an unknown one with room in hour and quota, which a new identity of the caller then holds |
| OfflineStore.Store.RotateKey | src/offline_identity.rs:366-403 | keeps the invariant; accepted if and only if the approved owner names the current generation and the hour has room; the new key of the next generation is the only one, sessions and appearance end, and no other identity changes |
| OfflineStore.Store.RevokeKey | src/offline_identity.rs:405-433 | keeps the invariant; accepted if and only if an active account owns the identity; keys and sessions are revoked at the reading of the clock, the binding moves on, and no other identity changes |
| OfflineStore.Store.ActivateSession | src/offline_identity.rs:435-504 | keeps the invariant; accepted if and only if the approved caller presents its unrevoked key and the current binding revision, with room in the minute; the new session claims the entity named, bound at the next revision, for the lifetime of the settings, the older ones are revoked, both revisions rise by one, and no other identity changes |
| OfflineStore.Store.PublishAppearance | src/offline_player.rs:140-223 | keeps the invariant; a publish is accepted if and only if its session is live, what it carries is admitted, and binding and appearance revision are the current ones; a refusal changes nothing, and only that identity's rows change |
| OfflineStore.Store.WithdrawSession | src/offline_player.rs:225-251 | keeps the invariant; a withdrawal is accepted if and only if its session is live, ends exactly that session, and afterwards the session is refused to everybody at any time |
| OfflineStore.Store.DecideAuthorization | src/offline_authorization.rs:229-277 | keeps the invariant; accepted if and only if the account exists and is not disabled; sets that account's status alone, a revocation ends the sessions of all its identities, and all other rows stay |
| OfflineStore.Store.ApplySettings | src/offline_identity.rs:601-623 | keeps the invariant; switching off ends every session at the reading of the clock while keys and grants stay, and any other mode leaves sessions alone |
| OfflineStore.Store.Open | src/store.rs:126-136 | keeps the invariant; no session and no appearance survives a restart, while keys, grants and identities do |
| OfflineStore.Store.IssueOfflineKey | src/offline_identity.rs:315-364 | the request's two transactions with others in between: a key is issued only if the first granted approval and the account is still approved after the others |
| OfflineStore.Store.EnrollOfflineDevice | src/offline_authorization.rs:186-208 | an account not approved is answered with its status; otherwise enrolling checks again after what others did in between |
| OfflineStore.Store.RotateStatements | src/offline_identity.rs:366-403 | the statements in order, with their rollback, have the effect of the rotation the run lemmas are about |
| OfflineStore.Store.ActivateStatements | src/offline_identity.rs:435-504 | the statements in order, with their rollback, have the effect of the activation the run lemmas are about |
| OfflineEffects.PublishMeans | src/offline_player.rs:140-223 | in safe states the exact condition and effect of a publish |
| OfflineEffects.LapsingSurvivesExactly | src/offline_player.rs:129-220 | a session whose expiry passes while a step runs survives that step if and only if the step publishes through it for a positive lifetime, it is live at the first reading, the publish is admitted and names the current binding and appearance revisions |
| OfflineEffects.WithdrawnRefused | src/offline_player.rs:225-251 | after an accepted withdrawal the session is refused to every account, with every token, at every time |
| OfflineEffects.ActivatedPublishes | src/offline_identity.rs:483-485 | after an activation its identity publishes the entity named, and no other, exactly until the lifetime ends |
| OfflineEffects.ErrorsTellTheTruth | src/offline_identity.rs:315-504 | every error of every operation says something true of the tables and the call, and that the checks before it passed |
| OfflineStore.Store.QueryOfflinePlayers | src/offline_player.rs:253-345 | the loop over the entries leaves decided ones alone and fills in the others as the set of publishers says |
| RequestLimiter.Limiter.Admit | src/offline_identity.rs:27-58 | for readings in any order the table holds what the calls left, in at most 4096 buckets, empty only at a limit of zero; when nothing in the window has been overtaken, a request is admitted if and only if its true window and the table have room, and no window exceeds its limit; in order the log of calls alone decides |
| RequestLimiter.RememberedExactly | src/offline_identity.rs:40-44 | for any reading the queue is at most as long as the true window, and equal to it if and only if no admission in that window was followed by a reading beyond its own window |
| RequestLimiter.DecisionExactly | src/offline_identity.rs:40-57 | a bucket that has its place decides as its true window would under every limit if and only if nothing in the window has been overtaken |
| RequestLimiter.DecisionInOrder | src/offline_identity.rs:40-57 | a request whose reading is behind no earlier one is admitted if and only if its true window has room and its bucket has an admission in its window or fewer than 4096 buckets do |
| RequestLimiter.SkewedRunWithin | src/offline_identity.rs:27-58 | along every run whose readings are at most d out of order no account exceeds its limit in any window shortened by d; in order, in any window |
| RequestLimiter.OutOfOrderExceeds | src/offline_identity.rs:33-57 | a run of three admissions through the limiter, the last with an older reading, admits one account twice in a minute under a limit of one |
| ConcurrencyLimiter.NoInterleavingLosesWakeups | src/performance.rs:58-106 | in every interleaving the counters count live permits and pauses, and whoever sleeps unnotified although it would get through is still owed a notification |
| ConcurrencyLimiter.SleeperGetsThrough | src/performance.rs:66-92 | such a sleeper gets through within four steps that need no new job, release or change of limits |
| ConcurrencyLimiter.LimitRespected | src/performance.rs:58-92 | an admission happens only without pauses and within the limit, and resizing or pausing touches no running job |
| ConcurrencyLimiter.HoldersAfter | src/performance.rs:77-106 | an admission adds one permit holder, a release removes one, and no other step changes who holds |
| ConcurrencyLimiter.Limiter.LookAtCounts | src/performance.rs:66-92 | keeps counters exact and loses no wakeup; a caller gets through if and only if the limiter admits it or nothing is active, then holds one more permit within the limit, and otherwise sleeps without an opportunity |
| UpdateDrain.DrainIsSafe | src/maintenance.rs:604-628 | in every reachable state no upload is in flight while processing is paused, and once drained neither an upload nor a worker holds a permit |
| UpdateDrain.DrainedStays | src/maintenance.rs:604-628 | both active counts stay zero until the pauses drop, whatever arrives |
| UpdateDrain.DrainCanFinish | src/maintenance.rs:604-618 | over gates that hand out a permit in one step, a finite schedule without arrivals completes every drain, nested permits and detached workers included |
| UpdateDrain.SomeStepCloser | src/api.rs:1059-1065 | a drain in progress always has a step of an admitted job or of the updater that brings it closer to its end |
| GatedDrain.DrainCompletes | src/maintenance.rs:604-618 | over the two limiters themselves, with sleeping callers and pending notifications, a finite schedule of ordinary steps completes every drain from every reachable state |
| GatedDrain.DrainIsSafe | src/maintenance.rs:604-628 | over the two limiters, no upload holds a permit once processing drains, and no caller holds one at either once drained |
| GatedDrain.Simulates | src/performance.rs:58-106 | every step of callers, jobs and updater at the limiters is one step of the drain or invisible to it |
| GatedDrain.GetsThrough | src/performance.rs:66-92 | a caller whose look would succeed gets through by its own steps and at most one pending notification, wherever in its loop it stands |
| GatedDrain.SafeKept | src/api.rs:1059-1065 | jobs stand at their gates where their stage says, and the updater's waiter is through only at an empty gate |
| CatalogPages.WalkVisitsAll | src/catalog.rs:50-55 | following the cursor over an unchanged database visits exactly the visible matching assets, each once and ascending, in max(1, ceil(n/limit)) pages |
| CatalogPages.PageIsFirst | src/catalog.rs:81-141 | a page holds the first `limit` selected assets as built from their rows, and a cursor exactly when more are left |
| CatalogPages.NextSelectsRest | src/catalog.rs:96-103 | the request at the cursor selects precisely what the page left over |
| CatalogRevalidation.CachedPageIsCurrent | src/catalog.rs:144-219 | the recheck of an arbitrary cached page answers true if and only if it has at most 80 entries, their ids are distinct and each equals the row today's database builds for this account and scope |
| CatalogRevalidation.CountsDecide | src/catalog.rs:218 | as many rows as entries means distinct ids that are all visible |
| CatalogRevalidation.MatchesDecide | src/catalog.rs:188-218 | equal counts and a match of each row with the first entry of its id are a current page, and conversely |
| CatalogRevalidation.LoadedPageIsCurrent | src/catalog.rs:81-219 | a page just loaded passes the recheck against the same database |
| CatalogMemory.GetIsLatest | src/catalog_cache.rs:111-119 | with one clock reading per entry, a get never returns a page expired when it began, always returns the last accepted put of its key, and surely does while fewer than `max_pages` other keys were touched since and the page lasts until it ends |
| CatalogMemory.GetRemembers | src/catalog_cache.rs:111-119 | a get keeps keys distinct, entries in order of touch, and only overtaken or expired pages missing |
| CatalogMemory.TouchRemembers | src/catalog_cache.rs:190-201 | so does a put, with at most `max_pages` entries left |
| CatalogMemory.FrontOvertaken | src/catalog_cache.rs:199-201 | the page at the front has been overtaken by as many distinct keys as there are entries behind it |
| CatalogMemory.Memory.Get | src/catalog_cache.rs:111-119 | retaining, finding, removing and pushing back is that get |
| CatalogMemory.Memory.Put | src/catalog_cache.rs:182-201 | retaining, pushing and popping is that put, and an oversized body leaves the older value |
| CatalogLinear.Linearizable | src/catalog.rs:60-78 | whatever the interleaving of readers, cache fills, cache replacement and writers with their transactions, every page returned equals the direct query on the database of some moment between its request's start and end |
| CatalogLinear.CachedIsCurrent | src/catalog.rs:73-76 | a page that comes from the cache is, at the moment it is returned, what the database would build |
| CatalogLinear.StepKeepsInv | src/catalog.rs:60-78 | a stored page was loaded at a moment whose change counter had reached the epoch of its key, even when the two differ, and what a writer under the lock has changed it has counted |
| CatalogLinear.ChangesAreCounted | src/database.rs:106-284 | between any two moments of a run different tables mean a risen change counter, through statements, commits, commits whose reply is an error, and rollbacks |
| CatalogLinear.FoundPageIsAnswer | src/database.rs:168-284 | a page found under the epoch just read was loaded during the request, or nothing has changed since it was |
| CatalogMeaning.WalkListsExactly | src/catalog.rs:93-103 | for a query without wildcards, following the cursor visits exactly the assets that are neither deleted nor blocked by moderation and whose id, name or format contains the query: the caller's own, the public ones, those of others it holds a permission short of manage on, or, in the widest scope, all of these and the managed ones |
| CatalogMeaning.VisibleExactly | src/catalog.rs:96-102 | what each scope grants, with the manual verdict overriding the scan's |
| CatalogMeaning.ScopesCoverAccessible | src/catalog.rs:96-102 | mine, shared and public are parts of accessible, which adds only what others let the account manage |
| CatalogMeaning.PageIsAllowed | src/catalog.rs:104-141 | every entry of a page is of an asset its scope grants and shows that asset's current revision, owner and thumbnail |
| CatalogMeaning.CurrentExactly | src/catalog.rs:144-219 | the recheck accepts a cached page if and only if its ids are distinct and every entry shows, as the tables are now, an asset its scope grants |
| CatalogMeaning.ReturnedWasAllowed | src/catalog.rs:60-78 | whatever the interleaving, all entries of a returned page were granted at one moment of its request, and those of a cached page when it was returned |
| CatalogMeaning.LikeExactly | src/catalog.rs:102 | a pattern matches if and only if the text falls into pieces that its characters stand for |
| CatalogMeaning.FoundExactly | src/catalog.rs:89-102 | a query without wildcards matches if and only if it occurs, letters A to Z folded, in the id, the name or the format |
| OrderedText.BelowExactly | src/catalog.rs:103 | one id is below another if and only if it is a proper prefix or has the smaller character where they first differ |
| OfflineUuid.OfflineUuid | src/player.rs:473-517 | for every name and constant table the procedure returns the RFC 1321 digest of the prefixed name with version and variant set |
| OfflineUuid.CompressChunk | src/player.rs:483-508 | the single loop with rotating variables is the 64 listed operations of section 3.4 |
| OfflineUuid.TurnIsApply | src/player.rs:485-504 | turning the four variables once is the next listed operation on the register it names |
| OfflineUuid.SelectIsWordIndex | src/player.rs:487-492 | the computed word indices and the table of shifts are the listed ones |
| OfflineUuid.BufferLength | src/player.rs:475 | the buffer is the least multiple of 64 with room for message, end mark and length |
| OfflineUuid.PaddingInjective | src/player.rs:475-479 | different messages never pad to the same bytes |
| OfflineUuid.Pad | src/player.rs:475-479 | filling the buffer in place gives the padding of sections 3.1 and 3.2 |
| OfflineUuid.VersionAndVariant | src/player.rs:513-516 | the UUID has version 3 and the standard variant, and every other bit is the digest's |
| Rfc1321.WordBytesInvert | src/player.rs:496-511 | reading a word from four bytes and writing it undo each other |
| Rfc1321.InitialBytes | src/player.rs:481 | the initial registers hold the listed bytes, low-order byte first |
| Rfc1321.LowBytesAt | src/player.rs:478-479 | the length's bytes are its digits to base 256, lowest first |
| Rfc1321.OutputReads | src/player.rs:508-511 | the digest read as four words is the four registers in order |
| OfflineUuid.PrefixSpells | src/player.rs:474 | the prefix is the text `OfflinePlayer:` |
| SqlPlaceholders.Rewrite | src/database.rs:542-592 | the cursor loop removes the numbers of the placeholders outside literals, keeps every other token, and records the indices; it gives up if and only if a number does not fit the machine word or, where arithmetic is checked, is zero |
| SqlPlaceholders.SameStatementExactly | src/database.rs:542-592 | for every text and values, the output with its positional parameters is the statement SQLite would run whenever the text is unmixed; when values are distinct, only then |
| SqlPlaceholders.NumberingsAgreeExactly | src/database.rs:564-584 | the recorded indices are SQLite's if and only if no number written before a bare placeholder exceeds the bare ones before it |
| SqlPlaceholders.OneKindIsUnmixed | src/database.rs:564-584 | all-numbered and all-bare statements are unmixed |
| SqlPlaceholders.MixedDiffers | src/database.rs:571-574 | in `?5,?` the bare placeholder is the sixth value to SQLite and the first to the scanner |
| SqlPlaceholders.RescanIsPositional | src/database.rs:542-592 | scanning the output again changes nothing, finds the same literals, and yields the indices in order |
| SqlPlaceholders.BindValues | src/database.rs:241-252 | the k-th parameter is the value at the k-th index, or the first index without a value is reported |
| SqlPlaceholders.RecordsDecimal | src/database.rs:579-583 | a placeholder written with the decimal number n names the n-th value |
| SqlPlaceholders.RecordsWritten | src/database.rs:572-586 | in any text without quotes and placeholders before it, a question mark and the decimal number n, with no digit after, records n - 1 and leaves the question mark |
| SqlTokens.LexOfSource | src/database.rs:542-592 | a canonical token sequence is what its own text is divided into |
| SqlTokens.BlankedIsCanonical | src/database.rs:587-588 | removing numbers moves no token boundary |
| SqlTokens.NumberOfDecimal | src/database.rs:579-583 | the number read from decimal notation is the number written |
| SqlTokens.LeadingZero | src/database.rs:579-583 | a leading zero changes nothing |
| SqlTokens.LiteralReads | src/database.rs:551-568 | a quoted text with its quotes doubled is one literal, whatever it holds |
| SqlStatements.SplitStatements | src/database.rs:594-615 | the toggling loop returns, in order, for each piece between the semicolons that the scanner sees outside literals its text without outer spaces, and nothing for a piece of spaces |
| SqlStatements.MarksAgree | src/database.rs:594-610 | outside the quote characters themselves the toggle and the scanner agree on what is quoted |
| SqlStatements.PiecesRestoreText | src/database.rs:594-615 | the pieces with semicolons between them are the text |
| SqlStatements.PiecesStandAlone | src/database.rs:261-270 | each piece scanned on its own has the tokens it has in the batch |
| SqlStatements.AsciiSpaces | src/database.rs:604-612 | of the ASCII characters exactly the space and the controls from tab to carriage return are trimmed |
| SqlStatements.TrimmedExactly | src/database.rs:604-612 | trimming takes the spaces off both ends and nothing else |
| SqlStatements.TrimmedScans | src/database.rs:604-612 | a trimmed piece has the tokens of the piece without outer space tokens if and only if the piece does not end in a space inside an unclosed literal |
| ConfigProviders.Tables.ReconcileProviders | src/admin_settings.rs:433-455 | accepted if and only if all entries are sound, none is `official` and ids are distinct; disabling and upserting row by row gives the reconciled registry, and a refusal changes nothing |
| ConfigProviders.ReconciledTwice | src/admin_settings.rs:433-455 | reconciling the same configuration again changes nothing |
| ConfigProviders.OthersUntouched | src/admin_settings.rs:433-455 | `official` and providers no configuration ever named keep their rows |
| ConfigProviders.NothingForgotten | src/admin_settings.rs:433-455 | no provider row is deleted, and a provider once managed stays managed |
| ConfigProviders.ConfiguredExactly | src/admin_settings.rs:422-455 | a managed provider is enabled exactly when the configuration names it enabled, and a named row is as configured |
| ConfigPublication.RecoveredExactly | src/config_apply.rs:150-181 | for crashes, failures and edits of the file at any point of publication, a commit that lands and reports a failure and crashes during startup included, the startup that completes leaves the settings of the file it loaded applied to the database as last reported, if and only if no commit landed unheard under another file or every provider only the published file names was managed before with the same details |
| ConfigPublication.CrashIsRecovered | src/config_apply.rs:150-181 | when every reply told the truth it always does |
| ConfigPublication.RecoveryIsAllOrNothing | src/main.rs:76-83 | a publication that began in agreement ends after recovery with the old settings under the old file or the new ones under the new file, and memory holds that file |
| ConfigPublication.AgreedAlways | src/config_apply.rs:150-184 | in every run, with edits of the file at any time, whenever nothing is outstanding memory holds the configuration of the file and replaying it would change nothing in the database |
| ConfigPublication.RunKeepsOffline | src/config_apply.rs:156-163 | in every run of publications, reloads, edits, crashes, startups and operations of players and administrators the five offline tables keep their invariant |
| ConfigPublication.StartupSilences | src/store.rs:126-136 | a startup that completes leaves no earlier session acceptable to anybody at any time |
| ConfigPublication.InvalidIsIgnored | src/config_apply.rs:145-149 | a configuration that fails validation is neither published nor reloaded, and no startup completes with it |
| ConfigPublication.LostReplyExactly | src/admin_settings.rs:433-455 | reconciling the old providers over the new ones equals reconciling them over the rows before if and only if the new ones carry over |
| ConfigPublication.LostReplyLeavesProvider | src/config_apply.rs:175-180 | a run in which the commit lands unheard, the old file is put back, and the restarted service keeps a provider that no file names |
| ConfigPublication.Server.Apply | src/config_apply.rs:126-184 | publishing in order ends as one of the machine's runs: committed and in memory, refused, restored, or left with the new file; what lands has the policy, the reconciled providers and the offline mode of the file, with every session ended if that is off; a failure leaves memory alone |
| AccountLinks.RunKeepsOwner | src/game_auth.rs:544-619 | in every state reached by linking, logging in and connecting, all verified rows of a game profile have one owner, and links are one-to-one with no account on both sides |
| AccountLinks.LoginUnambiguous | src/game_auth.rs:571-582 | a login names the owner of every verified row of the profile, and fails only when there is none |
| AccountLinks.LoginExactly | src/game_auth.rs:571-596 | a login is accepted if and only if the provider is enabled and the profile has a verified row, and writes the name the provider gives to the verified rows of the profile and nothing else |
| AccountLinks.LinkExactly | src/game_auth.rs:597-617 | a link is accepted if and only if the provider is enabled, the account exists and nobody else owns the profile; it writes one row, verified, with the given name, and a new one only if the account had none of the profile |
| AccountLinks.DuplicateUnreachable | src/account_links.rs:88-91 | the duplicate check before connecting never finds one |
| AccountLinks.ConnectConserves | src/account_links.rs:71-108 | connecting keeps every row and id and moves exactly the web account's verified game identities |
| AccountLinks.ConnectExactly | src/account_links.rs:71-108 | connecting two accounts is accepted if and only if both exist, the Cloud account is not disabled, neither side is in another link and the change is audited; it leaves exactly the new link |
| AccountLinks.LookupsInvert | src/account_links.rs:43-70 | web-to-cloud and cloud-to-web invert each other exactly off the other side of a link |
| AccountLinks.LoginMovesOnlyByConnect | src/browser_auth.rs:636-648 | whom a profile logs in as changes only when an account connects itself to that very account |
| AccountLinks.FlowThenLogin | src/browser_auth.rs:590-648 | an uninterrupted link strands no identity, and logging in then leads back to the linking account if and only if that is not the Cloud side of another's link |
| AccountLinks.LinkStrandsExactly | src/game_auth.rs:601-612 | a link leaves an identity on a web side if and only if its account is the web side of a link |
| AccountLinks.StagedFlowStrandsExactly | src/browser_auth.rs:604-633 | with any operations of others between its stages the flow strands its identity if and only if the account was unlinked when it began, the flow does not connect it, and somebody connects it in between |
| AccountLinks.StagedFlowLogsIn | src/browser_auth.rs:604-648 | whatever came in between, after an accepted link the profile logs in as the linking account if and only if that is not the Cloud side of another's link by then |
| AccountLinks.StaleLinkStrands | src/browser_auth.rs:604-633 | a connection between two stages of the flow strands the identity |
| AccountLinks.Directory.ConnectOwnedAccounts | src/account_links.rs:71-108 | the statements leave the rows, links and reply of connecting, error cases included |
| AccountLinks.Directory.FinishGameIdentity | src/game_auth.rs:544-619 | the statements leave the rows and reply of a login or of a link, reusing the verified or provisional row |
| MotionTimeline.RevisionCountsWrites | src/entity_motion.rs:258-349 | while the epoch is current the revision is the number of accepted writes and never resets, for readings in any order |
| MotionTimeline.LiveLeaseExcludes | src/entity_motion.rs:315-318 | no other account withdraws a row, or publishes on it with a reading at which its lease is live |
| MotionTimeline.SameEventExactly | src/entity_motion.rs:315-341 | a publication of the row's event is accepted, at any reading, if and only if the lease is live at that reading and publisher, start and, while the payload is stored, animation are the row's |
| MotionTimeline.EndedNotContinued | src/entity_motion.rs:319-323 | when every publication of the row's event brings a reading at which its lease was over, none is accepted before another event is |
| MotionTimeline.WithdrawnNotContinued | src/entity_motion.rs:284-291 | after an accepted withdrawal no run publishes the event again before another one, at any reading |
| MotionTimeline.ReturnsExactly | src/entity_motion.rs:315-341 | a fitting publication of the row's event, the next one of that event, is accepted if and only if another event was published in between or it continues the row as the run left it; with a reading at which the lease was over, if and only if the former |
| MotionTimeline.OtherEventExactly | src/entity_motion.rs:309-341 | a publication of another event than the row's is accepted if and only if it fits revision, lease and start, whatever ended before |
| MotionTimeline.EventKeepsAnimation | src/entity_motion.rs:319-333 | consecutive accepted publications of one event have one publisher and one start, and one animation if and only if those that find the payload cleared show it |
| MotionTimeline.InOrderKeepsAnimation | src/visual.rs:303-304 | they have one animation whenever no publication brings an older reading than a cleanup before it |
| MotionTimeline.LateReadingContinues | src/entity_motion.rs:433-438 | a run in which a reading taken before the lapse continues a cleared event under another animation, and a reading at the lapse does not |
| MotionTimeline.CleanupExactly | src/visual.rs:303-304 | cleanup clears exactly the payloads whose lease is over at its reading and deletes exactly the rows of past epochs |
| MotionTimeline.LapsedEventReturnsAfterAnother | src/entity_motion.rs:319-323 | after another event a lapsed one is accepted again |
| MotionTimeline.Table.PublishEntityMotion | src/entity_motion.rs:293-349 | for any reading, a publication of the row's event is accepted if and only if it continues the row and one of another event if and only if it fits; it raises the revision by one and leases the row to its account until a minute after its reading; a refusal changes nothing |
| MotionTimeline.Table.WithdrawEntityMotion | src/entity_motion.rs:258-292 | accepted if and only if the row's publisher names its revision; then the payload is gone, the lease is over, the revision rises by one and no publication of the event is accepted on the row; a refusal changes nothing |

## Left out

- Validation of labels, names, slugs, ranges and formats, and the status codes: a call that fails it changes nothing.
- RSA, Argon2, SHA-256 and remote identity providers: proofs are booleans, hashes are injective, fresh identifiers that collide fail the insert's key constraint.
- Writes to the SQLite file by another process: the part of the catalog epoch that counts them is constant.
- Redis as a cache backend: only `CachedPageIsCurrent` speaks about its pages.
- The change counter under statements that fail inside a batch (`src/database.rs:261-284`): only migrations run such batches. That a statement reports at least one row when it changes a table is the databases' promise.
- Unicode case folding of a search query: the folded text is part of the request.
- The MySQL wire protocol, isolation between several processes and MySQL's backslash escapes inside literals.
- SqlPlaceholders.Rewrite: does not model the regular-expression rewrites before the scan or comments, which the scanner reads as text. The zero in `?0`, which underflows (`src/database.rs:576-579`), stands for the index -1 where arithmetic is not checked.
- OfflineUuid.OfflineUuid: does not model the floating-point sine; the 64 constants are a parameter.
- Field values other than identifiers and revisions in appearances and displays: a payload number stands for them.
- ConfigPublication.RecoveredExactly: does not model staged credential files, settings that wait for a restart, or an origin that fails validation only at startup.
- UpdateDrain.DrainCanFinish: hands out a permit in one step; the callers that sleep at a gate are in `GatedDrain.DrainCompletes`.
- ConfigProviders.Tables.ReconcileProviders: a number stands for a provider's name, address and paths.
- The revision check of the settings page (`src/admin_settings.rs:389-414`): one comparison of file contents.
- Administrator roles in the browser flow: a refusal that changes nothing.
- `AccountLinks` starts from any directory with single owners; asset ownership transfer (`src/account_links.rs:109-158`) is not modelled.
- A world epoch that becomes current again after a rotation: a timeline is followed within one epoch.
- Process replacement, archives and downloads of an update: only the drain before them.
- Routing, headers, sockets, the web pages, previews, model decoding and texture scanning.
