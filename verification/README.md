# A verified model of cqrs-htmx's sync protocol and dispatch boundary

This Dafny project models the parts of the library in which many small decisions have to add up
to one promise, and proves those promises for every input, every configuration and every
reachable state:

* **the pull half of the frontend sync protocol**: the cursor read of the journal, its two
  readers, the wire record, the position ETag, the paging loop, and the whole system of journal,
  tabs, workers and messages over every run;
* **the push half**: the batch endpoint that replays each endpoint's pipeline per command;
* **the dispatch gate** of commands and queries: declarations, verdicts, audit mode, manifest,
  concurrent declarations, and the conformance suite that probes a gate;
* **the dispatch pipeline** of one endpoint as a trace of everything a request makes happen;
* **authorization**: the two code paths that answer one question;
* **the readiness probe** over every interleaving of its goroutines;
* **smaller loops**: redirect paths, handler options, body limits, admin paging and filters,
  form keys.

Objects whose methods update fields are classes, loops are loops, in-place work is done on
arrays; each such method is proved against a specification function, and the promises are
theorems about that function. Interleavings are state machines over explicit steps.

Check everything with `dafny verify dfyconfig.toml`.

## Layout

| file | what it holds |
|---|---|
| `Prelude.dfy`, `Strings.dfy` | optional values; Go's string order |
| `EventIds.dfy`, `Base64.dfy`, `SyncWire.dfy` | event IDs and their text order, RFC 4648 base64, the wire record |
| `SyncPull.dfy`, `SyncPullHandler.dfy` | one page; the HTTP handler, the ETag and the 304 |
| `SyncDrain.dfy`, `SyncRun.dfy` | the paging loop; the protocol over whole runs |
| `SyncWorker.dfy`, `SyncBackends.dfy` | the caching worker and its reset; what it can lack after batches of several backends |
| `Errors.dfy`, `Authz.dfy` | error chains and codes; the authorization contract |
| `Postures.dfy`, `DispatchGate.dfy`, `GateLaws.dfy`, `DeclareRace.dfy` | the in-place sort; the gate; its laws; concurrent declarations |
| `CommandSuite.dfy` | the conformance suite against the gate |
| `Pipeline.dfy`, `PipelineLaws.dfy`, `Endpoints.dfy` | one endpoint's stages and trace; what every trace has in common; what an endpoint asks and answers, in terms of its configuration |
| `SyncPush.dfy`, `PushLaws.dfy`, `Envelopes.dfy` | the batch push; its refinement of the endpoints; what becomes of one envelope |
| `Readiness.dfy`, `ReadinessLaws.dfy` | the probe as interleaved steps; its answers and its termination |
| `PathEscape.dfy`, `Options.dfy`, `Paging.dfy`, `FormKeys.dfy` | the smaller loops |

## Assumptions

* Event IDs are totally ordered, events are immutable, and an appended ID exceeds every ID the
  journal ever held (`sync_pull.go:169-170`, `sync_pull.go:315`). The journal's own `ReadFrom` is
  taken at its contract: the first `count` events strictly after a cursor.
* A client's filter does not change during a run, and the client follows the contract: it keeps
  its cursor when a reply has none (`sync_pull.go:115-118`). A pull may start from any cursor the
  client has reached, or from the empty one, as it does when its worker does not answer in time
  (`sync/sync-client.js:385-390`).
* Where batches of several backends meet, an event ID belongs to one backend.
* The ETag hash is ideal (injective) where a 304 is concerned. What is hashed, and that it can be
  read back from the bytes, is proved.
* Library calls are parameters: JSON validity and the encoder's rewriting of a JSON value (which
  never turns one into the empty text), case mapping, media-type parsing, URL parsing,
  error classification, the policy engine, the command dispatcher, decoders, guards, renderers
  and hooks. The dispatcher, the policy engine and its configuration, request resolvers, decoders
  and guards may answer by everything dispatched before.
* `errorfamily.Code` is the code of the outermost coded level at or below an error; an absent
  user ID renders as the empty string.

## Where the code and its documentation differ

The model follows the code; each difference is a lemma with the exact condition.

* The ETag is documented as a hash over backend ID, next cursor and `hasMore`; the code also
  hashes the event count, and without it a compacted event would go unnoticed
  (`SyncPullHandling.DocumentedTupleIsNotEnough`).
* Exactly one of `payload` and `payloadB64` is documented to be set
  (`docs/guides/frontend-sync.md:84`); the inline payload is tagged `omitempty`, for which
  `encoding/json/v2` leaves out `{}`, `[]`, `""` and `null`, so an event with such a payload
  arrives with neither and the library's own decoder refuses the reply
  (`SyncWire.WireRoundTrip`, `SyncPull.ReplyDecodesIffAllSurvive`).
* The worker is documented never to move its cursor backwards on one backend
  (`docs/guides/frontend-sync.md:175`); it reads the cursor in one transaction and writes it in
  another, so two batches can both pass the test and the smaller cursor be written last
  (`SyncRun.RewindsIff`, `SyncRun.CursorCanMoveBack`). No event is lost by it
  (`SyncRun.CacheIsExact`).
* A changed backend ID is documented to start afresh (`docs/guides/frontend-sync.md:86`,
  `docs/adr/0056-frontend-sync-protocol.md:53`); the shipped worker empties the cache but takes the
  cursor of a batch that was pulled from the old backend's cursor, so what the rebuilt journal has
  at or below it stays missing (`SyncWorkers.ResetIsCompleteIffNothingLiesBelow`); and a batch
  without a cursor empties the cache while the old cursor and backend ID stay
  (`SyncWorkers.ResetWithoutACursor`). What a cache lacks after batches of any backends is
  characterised exactly (`SyncBackends.MissingIffNotCovered`).
* A broken policy engine is documented not to look like a permissions problem
  (`authz_contract.go:119-122`); the predicates walk the whole chain of causes, so an engine whose
  own failure declares the code `forbidden` or `unauthorized` is read as that, and one whose
  failure declares neither as a failure (`Authz.VerdictIsTheEnforcers`,
  `Authz.BrokenEngineCanReadAsForbidden`).
* Only a relative path is documented to pass the redirect check (`response.go:277-279`); the check
  is made on the path as given and the cleaned path is sent, so `./http:/e.io` passes and an
  absolute URL is sent. What is sent is relative exactly if the path is rooted or the first segment
  of its clean form has no colon (`PathEscape.SafeRedirectsStayInside`,
  `PathEscape.CleaningCanUncoverAScheme`).
* `WithMaxBodySize` is documented to fall back to the App's limit for zero or negative values; a
  negative value skips the App's limit (`Options.NegativeSkipsTheAppLimit`).
* `WithSyncPullLimit` is not checked: with limit 0 a non-empty journal answers `hasMore` without
  a cursor for ever, and a negative limit panics (`SyncPull.ProgressNeedsAPositiveLimit`).
* `AuthorizeIn` and `AuthorizeRequest` agree for every enforcer exactly if the domain is not
  empty: only the second turns an empty domain into the wildcard (`Authz.AgreementNeedsADomain`).
* A push replays an endpoint's decoding, authorization and guards, but not its BeforeDispatch
  hook, its user extraction, its own method, CSRF and content-type guards, nor the type check of
  a typed registration (`PushLaws.PushRefinesEndpoint`, `PushLaws.PushDoesNotExtractUsers`).
* A form with several ambiguous keys is always refused, but which key is named depends on the
  map's iteration order (`FormKeys.ReportIsDeterminedIffOneNameCollides`).

## Model

| member | source | states |
|---|---|---|
| `EventIds.TextKeepsOrder` | sync_pull.go:316-343 | comparing event IDs as 26-character text, as the full-scan reader does, is comparing them as numbers |
| `Base64.RoundTrip` | sync_pull.go:354-381 | decoding what the standard encoding of RFC 4648 section 4 produced gives the bytes back |
| `SyncWire.NewSyncEvent` | sync_pull.go:354-381 | filling the record step by step gives the wire record of the event |
| `SyncWire.RecordIsFaithful` | sync_pull.go:354-381 | the record built holds the original bytes, claims "json" exactly for bytes stamped JSON that are JSON, and has the event's own ID, type, stream, versions and time |
| `SyncWire.WireRoundTrip` | sync_pull.go:59-102 | over the wire the decoder accepts exactly an event whose payload is not empty and not written inline as {}, [], "" or null, and reads the original bytes, of inline JSON as the encoder rewrites it; everything but the payload arrives as it was |
| `SyncWire.BytesComeBackIff` | sync_pull.go:345-381 | the original bytes come back exactly if the payload survives and the encoder leaves it alone |
| `SyncWire.EmptyObjectIsLost` | sync_pull.go:60 | an event with the JSON payload {} is sent without any payload and refused by the decoder |
| `SyncWire.SameOnTheWireIff` | sync_pull.go:354-381 | events that differ at most in their payload arrive alike exactly if the payloads are equal or both inline with one text, as {} and [] are |
| `SyncPull.ReadAllAfter` | sync_pull.go:316-343 | the full scan returns exactly the first `limit` events strictly after the cursor, as a seekable read does |
| `SyncPull.ReadSyncPullWindow` | sync_pull.go:284-312 | both reader paths give the same window by peeking one event further, and a negative limit panics |
| `SyncPull.PageIsExact` | sync_pull.go:208-242 | a page covers (after, next] without gap or repetition, delivers exactly its visible events in ascending order, and `hasMore` says whether anything lies beyond |
| `SyncPull.PageIsFull` | sync_pull.go:284-312 | a page reads as many events after the cursor as the limit allows, or all there are |
| `SyncPull.ProgressNeedsAPositiveLimit` | sync_pull.go:159-161 | a reply with `hasMore` carries a larger cursor for every journal exactly if the limit is at least 1 |
| `SyncPull.ReplyDecodesIffAllSurvive` | sync_pull.go:69-121 | a Go consumer can decode a reply exactly if the payload of every visible event in it survives the encoding |
| `SyncPullHandling.ParseSyncPullQuery` | sync_pull.go:246-282 | which queries are refused and why; an accepted one has the cursor given, none for an absent one, and the limit given up to 1000 |
| `SyncPullHandling.SyncPullHandler.constructor` | sync_pull.go:186-196 | the options folded in order, the last of a kind winning |
| `SyncPullHandling.LastOptionsWin` | sync_pull.go:125-196 | of each kind of option the last decides, and without one no backend ID, no filter and 500 events |
| `SyncPullHandling.SyncPullHandler.ServeHTTP` | sync_pull.go:197-243 | the reply for every method, query, journal read, filter and condition, over either reader |
| `SyncPullHandling.RefusalsAreOrdered` | sync_pull.go:197-243 | which reply refuses which request, in the order of the checks: any method but GET and HEAD, a limit that is no positive number, a cursor that is no event ID, a journal that cannot be read |
| `SyncPullHandling.AskedPageIsSent` | sync_pull.go:246-282 | what is sent is the page strictly after the cursor the request gives, or from the start, as full as the limit it gives or the default allows but at most 1000, with what the filter lets this caller see |
| `SyncPullHandling.SyncPullHandler.CollectVisible` | sync_pull.go:219-233 | the loop keeps exactly the visible events while the cursor also passes the hidden ones |
| `SyncPullHandling.SyncPullHandler.WriteSyncPullResponse` | sync_pull.go:401-421 | 304 exactly if the condition names the body's tag; otherwise the body is sent, with its tag |
| `SyncPullHandling.HashInputIsInjective` | sync_pull.go:386-397 | the hashed bytes determine backend ID, cursor, event count and `hasMore` |
| `SyncPullHandling.PositionDecidesBody` | sync_pull.go:386-411 | two states of one journal, related by appends and compactions, that agree on cursor, count and `hasMore` have equal pages |
| `SyncPullHandling.NotModifiedIffUnchanged` | sync_pull.go:401-411 | revalidating with the tag received is answered 304 exactly if the body is unchanged |
| `SyncPullHandling.DocumentedTupleIsNotEnough` | sync_pull.go:384-385 | without the event count, two different pages of one journal's history share the tuple |
| `SyncDrain.PullOnce` | sync/sync-client.js:445-466 | one request takes the first min(limit, left) events and leaves exactly the rest |
| `SyncDrain.PullEvents` | sync/sync-client.js:430-469 | the loop makes exactly min(cap + 1, pages needed) requests, is caught up exactly if the cap allows, and what was read and what is left make up the backlog |
| `SyncDrain.PagesForIsCeiling` | sync_pull.go:296-310 | the pages a backlog of n needs are max(1, ceil(n / limit)) |
| `SyncDrain.PagesSuffice` | sync/sync-client.js:463-466 | p pages suffice exactly for p * limit events |
| `SyncDrain.ShippedClientCatchesUpIff` | sync/sync-client.js:43 | the shipped page cap catches up with exactly the backlogs of at most 21 pages |
| `SyncWorkers.SyncWorker.PersistBatch` | sync/sync-worker.js:393-445 | the write transaction decides by the cursor and backend its earlier read saw, whatever is persisted by then: events stored under their IDs, the cursor taken unless it lies below the one read, a changed backend emptying the cache first |
| `SyncWorkers.SyncWorker.CacheEvents` | sync/sync-worker.js:390-445 | a batch whose two transactions are not interleaved with another's never moves the cursor of its backend back |
| `SyncWorkers.SameBackendIsWritten` | sync/sync-worker.js:404-445 | on one backend the write transaction is the write step of the runs |
| `SyncWorkers.FirstBatchIsKept` | sync/sync-worker.js:359-445 | a first batch is never taken for a reset, and is kept whole |
| `SyncWorkers.DiskIsSinceTheLastReset` | sync/sync-worker.js:390-445 | after any batches, taken in one by one, named backends or not, the cache is what the batches from the last detected reset on fill from nothing, and the cursor is theirs too unless the batch taken for the reset carried none |
| `SyncWorkers.OneBackendSinceTheReset` | sync/sync-worker.js:393-442 | once a backend has named itself in a first batch, no two backends have named themselves since the last detected reset, and the one that has is remembered |
| `SyncWorkers.NameIsRememberedIffCursorIsTaken` | sync/sync-worker.js:428-442 | while no backend is known, the one a batch names is remembered exactly if the batch's cursor is taken |
| `SyncWorkers.ResetWithoutACursor` | sync/sync-worker.js:393-442 | a batch of another backend without a cursor replaces the cache and keeps the old cursor and backend |
| `SyncWorkers.CacheIsSinceTheLastReset` | sync/sync-worker.js:390-445 | however reads and writes interleave and whatever backends batches come from, the cache is what was written since the last write that detected a reset |
| `SyncWorkers.LateBatchWipesTheCache` | sync/sync-worker.js:393-424 | a late batch of the replaced backend is itself taken for a reset, wipes the new cache and makes the old backend the known one |
| `SyncWorkers.ResetLeavesTheBatch` | sync/sync-worker.js:393-445 | a write that detects a reset leaves just its own batch, even if another batch of the new backend was written after its read |
| `SyncWorkers.ResetIsCompleteIffNothingLiesBelow` | sync/sync-worker.js:390-445 | after a reset the cache is complete exactly if the rebuilt journal shows nothing at or below the cursor the pull started from; a pull from the empty cursor always leaves it complete |
| `SyncWorkers.ResetCanLoseEvents` | sync/sync-worker.js:390-445 | a worker, a rebuilt journal and a batch after which an event is missing |
| `SyncBackends.PullBringsItsRanges` | sync/sync-client.js:442-487 | whichever backends serve the pages of a pull, what it collects is genuine and leaves out nothing visible of the ranges its pages covered |
| `SyncBackends.MissingIffNotCovered` | sync/sync-worker.js:390-445 | however the reads and writes of batches of any backends interleave, named or not, an event a backend still has is cached, as its own record, exactly if the client may see it and some page handed over since the last detected reset covered it |
| `SyncRun.WriteLeavesNoGap` | sync/sync-worker.js:396-445 | a batch that started at or below the largest cursor ever persisted leaves no gap below the largest persisted then, however late it arrives and however stale the cursor it decides by |
| `SyncRun.RunKeepsInv` | sync_pull.go:105-121 | every append, compaction, page, hand-over and loss, pulls from any cursor reached or from the empty one, and every interleaving of the batches' read and write transactions, keep the invariant of journal, workers, pulls, messages and batches |
| `SyncRun.CacheIsExact` | sync_pull.go:163-185 | over every run on one backend, pulls from the empty cursor included, an event still in the journal at or below the largest cursor a client ever persisted is cached, once and as delivered, exactly if the client may see it; nothing else was ever cached; and the present cursor is not above that |
| `SyncRun.CollectedIsExact` | sync_pull.go:105-121 | over every run, what a pull collected is strictly ascending and is exactly the visible part of the range it covered |
| `SyncRun.RunOnlyMovesForward` | sync/sync-worker.js:396-405 | the largest cursor persisted never shrinks, and later journals never regain old IDs |
| `SyncRun.JournalChanges` | sync_pull.go:167-171 | only an append adds an event to the journal and only a compaction takes one away |
| `SyncRun.RewindsIff` | sync/sync-worker.js:396-405 | of all steps exactly a write moves the persisted cursor back, and exactly if its batch's cursor passes the test against the stale read and lies below the present one |
| `SyncRun.FreshWritesNeverRewind` | sync/sync-worker.js:396-405 | never when nothing was persisted between the read and the write |
| `SyncRun.CursorCanMoveBack` | sync/sync-worker.js:392-416 | a run of two tabs, in every world, after which the persisted cursor goes from 2 back to 1 |
| `SyncRun.RevalidationIsExact` | sync_pull.go:401-411 | over every run, a later revalidation is answered 304 exactly if the page is still the one held |
| `Errors.CarriesCode` | authz_contract.go:185-196 | the loop finds a code exactly if some level of the chain declares it, at any depth |
| `Errors.WrapsKeepTheCode` | authz_contract.go:162-183 | wraps that do not declare a code neither hide nor add it |
| `Errors.ErrorCode` | httperr/errors.go:181-196 | the loop returns the code of the innermost coded level |
| `Authz.TwoPathsAgree` | authz.go:122-200 | for every enforcer of either arity, user and non-empty domain, AuthorizeIn and an AuthorizeRequest asking the same reach the same verdict |
| `Authz.VerdictIsTheEnforcers` | authz.go:122-200 | through either path a request without a user is unauthorized; a known user is allowed exactly if the enforcer answers yes, forbidden if it answers no, and an enforcer's error never allows and is a failure exactly if it declares neither shared code |
| `Authz.VerdictIsThePolicys` | authz.go:146-200 | where an engine of either arity answers, a known user's verdict through either path is its policy's answer to that user, domain, resource and action |
| `Authz.RefusalsInFull` | authz.go:122-200 | the error either way of asking answers with, code, family and cause, for a missing user, a denial, a failing engine and a missing one |
| `Authz.ModesWithoutAQuestion` | authz.go:176-200 | no mode refuses nobody, and RequireAuth refuses exactly a request without a user |
| `Authz.ResolverIsFollowed` | authz_contract.go:264-302 | AuthorizeRequest asks for the subject and domain its resolver names, or else the user and any domain, and admits exactly on the engine's yes; a failing resolver is reported as that |
| `Authz.ReasonsAreTheEngines` | authz_contract.go:125-160 | a decision carries the rules the engine named, and its reason says whether there were any; without a subject the engine is not asked |
| `Authz.BrokenEngineCanReadAsForbidden` | authz_contract.go:117-193 | an engine that fails and is read as a denial, through both paths |
| `Authz.AgreementNeedsADomain` | authz_contract.go:125-160 | they agree for every enforcer exactly if the domain is not empty |
| `Authz.RefusalsCarryOneCode` | authz_contract.go:264-302 | every denial declares exactly one shared code; a refusal that passes on a resolver's or engine's error declares just what that error does, and one for want of an enforcer neither |
| `Authz.VerdictSurvivesWrapping` | authz_contract.go:162-183 | a refusal reads the same at any wrapping depth |
| `Authz.FaultFamiliesDifferOnlyWithoutEnforcer` | authz_contract.go:202-220 | both paths fail together, and their fault families differ exactly without an enforcer |
| `Authz.CheckMatchesEnforceIn` | authz_contract.go:202-220 | the checker view of any enforcer is read as EnforceIn is, and an engine's error through either as that error |
| `Postures.SortDispatchPostures` | authz_dispatch.go:688-694 | the in-place insertion sort leaves the specified sorted list in the array |
| `Postures.InsertInPlace` | authz_dispatch.go:690-692 | one round moves one element to its place and touches nothing beyond it |
| `Postures.SortedIsPermutation` | authz_dispatch.go:688-694 | sorting keeps every row with its multiplicity |
| `Postures.SortedIsOrdered` | authz_dispatch.go:688-703 | distinct keys come out strictly ordered by kind and name |
| `Postures.OrderIsCanonical` | authz_dispatch.go:334-348 | one set of rows has one strictly ordered list |
| `Postures.KeyLessIsTotalOrder` | authz_dispatch.go:684-694 | the order by kind and name is a strict total order of the keys |
| `Postures.KindsThenNames` | authz_dispatch.go:684-694 | keys of one kind come in the order of their names, others in that of their kinds, by the first character that differs, so every command comes before every query |
| `DispatchGating.DispatchGate.Declare` | authz_dispatch.go:300-322 | a conflicting row is refused and nothing changes; otherwise a fresh table is published and the old one stays as it was |
| `DispatchGating.DispatchGate.Authorize` | authz_dispatch.go:469-542 | the answer and the observation for every table, actor, overlay and engine |
| `DispatchGating.DispatchGate.AuthorizeUndeclaring` | authz_dispatch.go:415-439 | the declaration-free middleware judges every type by one role-gated row |
| `DispatchGating.DispatchGate.Settle` | authz_dispatch.go:544-594 | enforcing denies, audit mode admits and marks, and each reports once |
| `DispatchGating.DispatchGate.Manifest` | authz_dispatch.go:337-348 | exactly the declared rows, strictly ordered, whatever order the map is walked in |
| `DispatchGating.DispatchGate.Validate` | authz_dispatch.go:361-390 | no problem exactly if rows exist and each has an enforceable posture and a reason |
| `DispatchGating.SpacesAreWhiteSpace` | authz_dispatch.go:379 | a reason is blank exactly if it has no character but the 25 of Unicode's White_Space property |
| `DispatchGating.ListRows` | authz_dispatch.go:337-345 | a walk of the map in any order lists every row once |
| `GateLaws.RefusalClass` | authz_dispatch.go:490-542 | unauthorized exactly without a subject, forbidden otherwise; an undeclared type is forbidden whoever asks |
| `GateLaws.EngineDecides` | authz_dispatch.go:53-75 | the engine is asked, part by part, what the payload's own PolicyContext says or else for the user, raw user actor or prefixed machine actor, in any domain, on "kind/name", to read for a query and to execute otherwise; a declared type is admitted exactly if it is public, or has a subject and is authenticated or the engine allows exactly that |
| `GateLaws.EngineFaultIsAnswered` | authz_dispatch.go:508-520 | where that question needs an engine, a missing or failing one is answered as such, in audit mode too |
| `GateLaws.QuestionIsReported` | authz_dispatch.go:462-481 | an undeclared type is forbidden to everyone, and the question reported is the one asked |
| `GateLaws.PosturesShrink` | authz_dispatch.go:505-542 | admissions shrink from public over authenticated to role-gated, and an unknown posture is role-gated |
| `GateLaws.UndeclaringIsRoleGated` | authz_dispatch.go:435-439 | AuthorizeCommand decides as a gate on which the type is declared role-gated |
| `GateLaws.AuditParity` | authz_dispatch.go:536-590 | both modes report the type, posture, question and decision judged; audit mode marks and admits exactly what enforcement denies; engine errors stop and silence both |
| `GateLaws.AuthenticatedAcceptsOverlaySubject` | authz_dispatch.go:634-669 | an authenticated posture is met exactly by a subject of the context or of the payload's own policy context |
| `GateLaws.DeclaringLaws` | authz_dispatch.go:300-322 | declaring keeps every row and its rendered object, and repeating a row changes nothing |
| `GateLaws.RowsAreStable` | authz_dispatch.go:300-332 | a row stays as declared in every later table |
| `GateLaws.DeclarationOrderIsIrrelevant` | authz_dispatch.go:334-348 | accepted declarations in any order and number give the same table |
| `GateLaws.ManifestIsCanonical` | authz_dispatch.go:334-348 | two manifests of one table are the same list |
| `DeclareRace.DeclareIsLinearizable` | authz_dispatch.go:300-332 | over every interleaving no declaration is lost, accepted rows stay, refused ones still conflict, and every table a dispatch loaded is one of the published states |
| `DeclareRace.SectionIsExclusive` | authz_dispatch.go:301-321 | two declarations are never inside the critical section together |
| `CommandSuites.Verify` | authztest/command_suite.go:81-122 | a suite passes exactly if every case can be probed with identities that are there |
| `CommandSuites.Probe` | authztest/command_suite.go:180-210 | on a verified suite the probe calls nothing nil and reports nothing exactly if the matrix of the posture holds |
| `CommandSuites.RequireClass` | authztest/command_suite.go:220-246 | silent exactly if the answer carries the expected class |
| `CommandSuites.FaithfulGatePasses` | authztest/command_suite.go:180-246 | an enforcing gate declared as the case says passes, whatever the payload's policy context says in each context as long as it names no subject |
| `CommandSuites.PassingRoleGatedCaseIsGated` | authztest/command_suite.go:196-205 | a passing RoleGated case proves the type declared, neither public nor merely authenticated, and not audited unless the engine failed |
| `CommandSuites.PassingRoleGatedCaseIsEnforced` | authztest/command_suite.go:196-205 | with an anonymous identity that neither context nor payload gives a subject it rules audit mode out |
| `CommandSuites.UndeclaredTypeFails` | authz_dispatch.go:490-509 | an undeclared type passes only a Public case behind an audit-only gate |
| `CommandSuites.StandardIdentities` | authztest/command_suite.go:22-32 | NoIdentity has no subject and AsUser has the user |
| `Pipeline.App.CheckRequiredContentType` | options_json.go:115-151 | which declared content types are refused, with which response and which reported error |
| `Pipeline.App.ExecutePreDispatchChecks` | handler.go:197-225 | the four checks in order, up to the first that objects, with its response |
| `Pipeline.App.DispatchContext` | handler.go:20-38 | the hook, the checks, and the closing hook exactly if a check refused |
| `Pipeline.App.HandleErr` | handler.go:63-88 | the response, the callback, then the hook |
| `Pipeline.App.ApplyQueryResponse` | handler.go:250-269 | what a renderer wrote stays written; a failing one is handled as an error after it, in place of the success answer |
| `Pipeline.App.ApplyCommandResponse` | handler.go:242-248 | the redirect, the default status or headers alone |
| `Pipeline.App.DispatchRequest` | handler.go:101-174 | a request produces exactly the specified trace and exactly the specified call |
| `Pipeline.App.ServeHTTP` | app.go:243-290 | without a dispatcher one error and no hook; otherwise the pipeline on the enriched request |
| `PipelineLaws.TraceIsACutPipeline` | handler.go:90-174 | every trace is the hook, a prefix of the canonical stages whose earlier members did not object, and the ending of the last one |
| `PipelineLaws.DispatchedIffNothingObjects` | handler.go:101-174 | the dispatcher is called exactly if no earlier stage objects, once, with the decoded value under its deadline |
| `PipelineLaws.OneResponseUnlessRenderingBreaksOff` | handler.go:63-88 | exactly one response per request, whatever fails, except two exactly if a query's renderer wrote and then failed |
| `PipelineLaws.HookIsCalledOnceUnlessRenderingFails` | handler.go:166-174 | AfterDispatch is called once, twice only for a query that fails to render |
| `PipelineLaws.HookHasTheLastWord` | handler.go:166-174 | the hook comes last, and reports no error exactly if the dispatch succeeded |
| `Endpoints.DispatchedIffAllIsMet` | handler.go:101-174 | the dispatcher is called exactly for a request with a permitted method, authorization, a valid token, the required media type, a decoded value of the right type and no objecting guard, each stated on the configuration and the request; once, with that value, in the hooks' context under its deadline |
| `Endpoints.RefusedForTheFirstUnmet` | handler.go:195-225 | a request is refused for the first of those it does not meet, with that stage's own response, callback and hook, and no later stage runs |
| `Endpoints.ServedRequestIsAnswered` | handler.go:150-174 | otherwise all stages run and the dispatcher's answer decides: its error, the redirect, what a renderer wrote or failed at, the configured status or 204, or headers alone, and the hook |
| `Endpoints.ExtractorFillsIn` | app.go:385-433 | an extracted user fills in a missing one, and a missing actor with it, and changes nothing else |
| `SyncPush.CheckUnion` | sync_push.go:74-104 | accepts exactly a confirmed outcome without error or a rejected one with one |
| `SyncPush.LastRegistrationWins` | sync_push.go:122-134 | the last registration of a type is the live one |
| `SyncPush.OnlyRegisteredTypesAreKnown` | sync_push.go:136-145 | a type never registered is unknown |
| `SyncPush.PushApp.Remember` | sync_push.go:125-134 | the registry is what its history of registrations leaves |
| `SyncPush.PushApp.RejectedSyncPushResult` | sync_push.go:315-331 | a rejection satisfies the decoder's union and names a family of the client's retry contract: the given one, or rejection for an unknown one |
| `SyncPush.PushApp.DispatchEnvelope` | sync_push.go:229-289 | the outcome, the call and the hook of one envelope for every registry and request |
| `SyncPush.PushApp.Serve` | sync_push.go:170-224 | which requests fail whole, with which status and code and without any effect, and what a batch answers, dispatches and reports to the hook |
| `SyncPush.OutcomeIsHonest` | sync_push.go:225-289 | confirmed exactly if dispatched and accepted; every outcome satisfies the union and names a family the client can act on |
| `PushLaws.OneOutcomeEach` | sync_push.go:212-223 | one outcome per envelope, in order, for its own command, knowing only the calls before it |
| `PushLaws.DispatchesAreASubsequence` | sync_push.go:212-223 | the calls are those of the envelopes accepted at their turn, each once, in batch order |
| `PushLaws.FailuresAreIsolated` | sync_push.go:163-166 | an envelope that is not dispatched at its turn leaves every other outcome and every call as if it were absent, even where decoders, guards and the policy engine go by what was dispatched before |
| `PushLaws.PushAcceptanceAgrees` | sync_push.go:154-169 | whatever hooks are configured, the endpoint comes to dispatch exactly if the envelope is accepted and the endpoint's own guards pass |
| `PushLaws.PushRefinesEndpoint` | sync_push.go:154-169 | the endpoint dispatches and succeeds exactly if the envelope is confirmed and the endpoint's own guards pass, and then with the same command in the same context |
| `PushLaws.PushDoesNotExtractUsers` | sync_push.go:292-311 | where only an extractor would find the user, the endpoint lets a RequireAuth command pass and the envelope is rejected |
| `Envelopes.EnvelopeIsDispatchedIff` | sync_push.go:229-289 | an envelope is dispatched exactly if it has a command ID and a known type whose authorization, decoder and guard accept the outer request with the envelope's body, length, content type (JSON by default) and command ID; and what is dispatched was decoded from that |
| `Envelopes.OutcomeNamesTheFirstFailure` | sync_push.go:225-331 | the outcome names the first failure, with its own code and the family the client is told, or confirms |
| `Envelopes.CallsAreReadFromTheirEnvelopes` | sync_push.go:292-312 | every call of a batch was decoded from its own envelope's body, after the calls before it |
| `Envelopes.HookHearsOfDispatches` | sync_push.go:268-272 | the hook is called once per dispatched envelope, with the dispatcher's own error |
| `Readiness.RunKeepsInv` | readiness.go:67-95 | every interleaving of the goroutines' steps keeps flag, map, wait group and channels consistent |
| `ReadinessLaws.StatusIsTruthful` | readiness.go:67-108 | the probe answers 200 exactly if every check passed, each by its own result or a timeout it was bounded by |
| `ReadinessLaws.BodyIsTruthful` | readiness.go:78-108 | the body names exactly the checks, and under each name "ok", or "fail" with the error's text, as a check of that name came out |
| `ReadinessLaws.EachEntryIsItsOwn` | readiness.go:78-93 | with distinct names every entry tells its own check's result, or that it timed out if it is bounded |
| `ReadinessLaws.StatusAgreesWithBody` | readiness.go:78-108 | a 200 comes with "ok" throughout, and with distinct names exactly then |
| `ReadinessLaws.EveryPossibleOutcomeHappens` | readiness.go:110-150 | whichever outcomes the checks may have, each its own result or a timeout it is bounded by, some schedule answers with exactly those |
| `ReadinessLaws.ScheduleDoesNotShow` | readiness.go:67-108 | without bounds, two probes of the same checks give the same status, and the same body for distinct names |
| `ReadinessLaws.SendNeverBlocks` | readiness.go:135-137 | a bounded check's send finds room in its channel, even after the probe has left |
| `ReadinessLaws.RunsAreBounded` | readiness.go:67-108 | no schedule runs for ever |
| `ReadinessLaws.ProbeEndsIffEveryCheckCanEnd` | readiness.go:37-42 | every schedule carried to its end answers exactly if every check is bounded or returns |
| `ReadinessLaws.EndedRunHasAnswered` | readiness.go:37-42 | if every check can end, a run in which nothing can move has answered |
| `ReadinessLaws.ProbeAnswersIffEveryCheckCanEnd` | readiness.go:37-42 | and otherwise not even one schedule answers |
| `ReadinessLaws.OneHungCheckHangsTheProbe` | readiness.go:37-42 | one unbounded check that never returns leaves every schedule without an answer |
| `ReadinessLaws.ProjectionReadinessCheck` | projection_readiness.go:78-111 | ready exactly if every projection is; the first failed one is named, else exactly the draining ones in order; no provider fails |
| `PathEscape.PathEscapesRoot` | response.go:306-336 | the two index loops answer true exactly if some prefix has more ".." than ordinary segments |
| `PathEscape.EscapeIsAnEmptyPop` | response.go:303-336 | that is exactly when a segment stack has to pop while empty; otherwise the stack is as high as the final depth and holds no ".." |
| `PathEscape.CleanIsTheStack` | response.go:293-297 | for a path that does not escape, path.Clean's stack is that stack, rooted or not |
| `PathEscape.EscapesIffCleaningLeavesUp` | response.go:293-297 | a path escapes exactly if cleaning it as a relative path leaves a ".." |
| `PathEscape.CleanTextReadsBack` | response.go:293-301 | the cleaned text splits back into the cleaned segments |
| `PathEscape.SafeRedirectsStayInside` | response.go:277-301 | a target is let through exactly for a non-empty, non-escaping path without scheme, host and opaque part; what is sent has no ".." and is already clean; and it is a relative reference exactly if the path is rooted or the first clean segment has no colon |
| `PathEscape.CleaningCanUncoverAScheme` | response.go:277-301 | a target that passes although what is sent has a scheme, for every host |
| `PathEscape.QueryIsLost` | response.go:293-301 | queries, fragments and user information are neither checked nor kept: a single segment with any query is sent without it |
| `Options.ConfigBuilder.ValidateDispatch` | options_validate.go:12-46 | wraps the decoder that is there and panics exactly if there is none |
| `Options.ConfigBuilder.Build` | app.go:346-360 | the options applied in order, or the panic, and the App's body limit for an unset one |
| `Options.PanicsIffMisplaced` | options_validate.go:18-26 | registration panics exactly if a validator precedes every decoder of its kind |
| `Options.BuiltDecoder` | options_types.go:133-145 | the built decoder is the last decoder followed by just the validators after it, in order |
| `Options.ValidatedAcceptsIff` | options_validate.go:28-44 | a validated decoding succeeds exactly if it decoded and every validator accepts, unchanged |
| `Options.FirstRefusalIsReported` | options_validate.go:36-41 | the first validator that refuses supplies the error |
| `Options.ModeIsTheMaximum` | authz.go:29-50 | the auth mode is the strictest any option asks for: one of them asks for it unless it is none, and none asks for more |
| `Options.RequireAuthNeverAdmits` | authz.go:38-50 | RequireAuth inserted anywhere never admits a request that was refused |
| `Options.LastResolverAsks` | authz_contract.go:240-260 | the last AuthorizeRequest supplies the question, even before an AuthorizeIn |
| `Options.LastAuthorizeInAsks` | authz_contract.go:253-260 | without a resolver the last AuthorizeIn supplies domain, resource and action |
| `Options.AuthorizeAsksInAnyDomain` | authz.go:29-36 | Authorize asks for its resource and action in the wildcard domain |
| `Options.LastTimeoutWins` | options_validate.go:90-97 | the last timeout given is the one built, none without one |
| `Options.LastLimitWins` | options_validate.go:99-106 | the last body limit given is the one built, none without one |
| `Options.ResolverDecides` | authz.go:176-183 | and that question alone decides the request |
| `Options.LimitMayStandAnywhere` | options_types.go:138-145 | the body limit may stand before or after the decoder it applies to |
| `Options.ReadBody` | decoder.go:60-89 | reading one byte past the limit tells exactly the bodies that are longer than it, or than 10 MiB where it is not positive; others come through complete |
| `Options.NegativeSkipsTheAppLimit` | options_validate.go:99-106 | the limit in force is the documented one exactly unless a negative setting meets an App limit other than the default |
| `Paging.EveryRequestGetsAWindow` | adminui/util.go:92-101 | any page number gives a window within the rows, full unless last, empty only without rows |
| `Paging.PagesPartitionTheList` | adminui/util.go:82-101 | the pages one after the other are the list |
| `Paging.EachRowHasOnePage` | adminui/util.go:92-101 | row k is shown on page k / size + 1 and on no other |
| `Paging.KeptIsExact` | adminui/handler_users.go:57-75 | a filter keeps every matching row with its multiplicity and no other |
| `Paging.FilterUsers` | adminui/handler_users.go:60-75 | the loop keeps exactly the users that match text and chip, in order |
| `Paging.SearchShows` | adminui/handler_users.go:38-90 | a user matches exactly if the text searched is part of the email or display name, in lower case, and the chip's own condition holds |
| `Paging.UsersIndex` | adminui/handler_users.go:14-27 | the page shown is a page of fifty of the filtered users: the one asked for if it exists, else the first or the last |
| `Paging.ResolveAuditEmails` | adminui/handler_audit.go:46-59 | in place, exactly the entries without an email whose user is known get it |
| `Paging.FilterAuditEntries` | adminui/audit_labels.go:66-81 | exactly the entries matching on any of four texts, all of them for an empty search |
| `Paging.AuditSearchShows` | adminui/audit_labels.go:66-81 | an entry matches exactly if the text is part of its action, email, user or label, in lower case |
| `Paging.AuditIndex` | adminui/handler_audit.go:19-35 | emails are resolved before the filter, and the page shown is a page of the filtered log |
| `FormKeys.NormalizeKeys` | decoder.go:142-158 | a form is refused exactly if two keys become one name, naming such a name; otherwise exactly the lowered form results |
| `FormKeys.OrderNeverDecides` | decoder.go:143-158 | the map's iteration order decides neither acceptance nor result |
| `FormKeys.ReportIsDeterminedIffOneNameCollides` | decoder.go:152-154 | the named key is the same for every order exactly if at most one name is ambiguous |

## Left out

- Hashing, ULID generation and parsing, JSON and CBOR codecs and the parsing of If-None-Match are library code; the model starts from their results.
- Of the JSON around a wire record the model has the fields left out when empty and the rewriting of an inline payload, not the text; strings are taken to be valid UTF-8. Message texts of errors, log records and server timing are not modelled.
- SSE fan-out, acknowledgements and the hub readiness check: thin hooks around a hub that is not part of this repository.
- SyncRun.CacheIsExact: runs with one backend. With several the cache need not be complete up to its cursor; what it then lacks is SyncBackends.MissingIffNotCovered.
- How a browser reads a redirect target beyond RFC 3986, such as one with backslashes.
- A browser database that is missing or aborts a write is a lost message.
- Journal stores, the command dispatcher, the policy engine and the error library are represented by their contracts.
- The walk that records a dispatch error on the response writer, HX-Trigger headers, Accept-Query, OpenAPI metadata, asset serving and templates: output without decisions.
- A renderer's output is modelled as written or not, not by its bytes or status.
- Deadlines are recorded in a context, not elapsed; a timer may fire at any moment. Panics other than those of option registration and the slice expression are not modelled.
- Go's integers are modelled as unbounded: no list, limit or page count here comes near their width.
- DispatchGating.DispatchGate.Validate: counts the problems instead of rendering them.
- Suite.Run's subtests and UndeclaredDispatches: iteration over cases and a set difference that add no further condition.
- Paging.AuditIndex: does not model a service without an audit log, which shows one empty page.
- A registration with an empty type panics before any option is applied.
