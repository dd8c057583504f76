# Verified model of the DatoriumDB smart client

A Dafny model of the smart client for DatoriumDB (Go package `datorium`), with
proofs of what its protocols promise. `dafny verify dfyconfig.toml` checks all
of it.

## What is modelled

**One command.** `Bounce` holds the client side of a routed command as a
deterministic machine: look into the cache, fetch the establishment document,
resolve a route, post, pause, and go round again after `wrongMachine`. `Client`
holds the client's methods as the source writes them (loops over a mutable
cache, one body reader shared by the transport attempts of a hop) and proves
that each is a run of that machine; `Files` does the same for uploads and
downloads. A `Network` answers every exchange arbitrarily; its ghost `tape`
records the events of the command under way and what each POST offered of the
body. `Traces` says what the runs of the machine are without it: which
event follows which, where each POST goes, and what every outcome is due to.
`Costs` bounds what a command can cost and shows the bounds are attained.

**Many clients.** `WriteSession` puts a lossy network under one write: a request
may be served late, its answer may be lost, and a request the client has given
up on may still be served afterwards. `VersionRetry` interleaves any number of
`PatchWithVersionRetry` calls with stale reads and other writers, `CreateVerify`
any number of `executeCreate` calls, `Drift` one command with a moving
configuration, `CacheRuns` any number of calls that look into, fill or refresh
one cache. `Calls` is the code of the first two protocols; `ClusterFollowsCode`
(in both modules) ties the interleaved calls to the same turns the code takes, as
`CacheRuns.Alone` does for `Establish`.

**Routing.** `Shard`, `RangeText`, `Establish` and `Routing`: slot ranges and
their spelling, the bitmap check for full coverage, parsing, and the choice of a
server. Go maps are walked in
arbitrary order, so the lookup is deterministic only because of what parsing has
established.

**The reference walk.** `Resolve`: the depth-limited depth-first walk with a
shared `seen` set, over possibly cyclic documents. `ResolveLimits`: what its
depth limit is worth, exactly.

**Small languages.** `Refs`, `SearchPath`, `ByteRange` and `FrontPage`.

## Assumptions about the servers

- A patch is executed only while the `#` it names is the current version, and
  every commit gets a version token not used before in the history of the
  document (docs/errors.md, `versionMismatch`; tech-docs/COMPATIBILITY.md).
- A create is executed only while no document has the id; `documentExists` and
  every other refusal, `wrongMachine` included, has no effect.
- `ok` is answered only by the exchange that executed the command.
- A command that arrives truncated is answered as malformed and has no effect.
- A multipart request that breaks off because its body cannot be opened ends as a
  transport error; a reopened body has the whole content.
- A read answers with some document that was committed, however old.
- In `Drift` only: a server answers `wrongMachine` only to a route computed from
  a configuration older than its own, and establish answers are current when
  they are served.

## Where code and documentation differ

The model follows the code.

- A negative `CreateAmbiguousVerifyDelay` is documented to disable the follow-up
  read (client.go:61-62, docs/client.md:25). It only removes the wait: a create
  that was lost goes unread exactly if the delay is not negative and the context
  ends in the wait (`CreateVerify.FollowUpRead`).
- `TransportRetries` is not clamped. A command can talk to a server at all if and
  only if it is not negative (`Costs.ExchangeIffRetries`); otherwise every command
  fails with the code `unknown`.
- The transport attempts of a hop share one reader, so a later attempt may send
  only the rest of the command. A create can therefore be refused although it was
  executed if and only if it has transport retries and a command to send
  (`CreateVerify.RefusalsAreCleanIffNoRetries`).
- `maxDepth` is not a distance. That all targets within `maxDepth` references are
  resolved holds if and only if it is one, or no more targets than `maxDepth` can
  be reached (`ResolveLimits.NearResolvedIff`).
- A create that finds the id taken succeeds without comparing contents. Its
  success means that its own content was committed if and only if nobody else
  uses the id (`CreateVerify.SuccessMeansMineIffExclusive`).
- `Bind` is documented to validate its collection against the live schemas
  (collection_client.go:66-69). After a fetch of its own it looks into the cache
  again, and only wants a schema of that name there, of whatever version. For
  every catalog: it goes on only with a document that has the catalog if and only
  if no other call stores between its own store and that look, or the catalog is
  empty (`CacheRuns.CatalogHeldIffUndisturbed`).

## Model

| member | source | states |
|---|---|---|
| Bounce.RunWellFormed | command.go:105-146 | on every run, at most `wmRetries` bounces are followed by another hop, attempt numbers stay within the transport retries, and the first attempt of a hop starts at offset 0 of the body |
| Traces.EventGrammar | command.go:105-146 | which event can follow which in any run: a refresh after a bounce, a pause after a loss and then the same exchange again, nothing after a verdict, a fault or a canceled pause |
| Traces.RunCounts | command.go:105-146 | the machine counts exactly the `wrongMachine` answers, and every POST goes to the base URL resolved last |
| Traces.OutcomeExplained | command.go:105-146 | every outcome of a command is due to its last event: success to an ok answer with that value, an application error to a refusal with that very code, `wrongMachine` only after as many bounces before, a local or transport failure to its own cause; events that leave nothing to do end the command |
| Traces.TransportErrorsAreRetried | client.go:149-171 | a transport error is returned only after exactly t+1 lost exchanges in a row |
| Client.SmartClient.PostAttempt | client.go:149-171 | one attempt of a POST with the pause after it; only a lost exchange is tried again, and the next attempt begins where this one stopped reading |
| Client.SmartClient.DoPost | client.go:149-171 | the whole transport loop of a hop takes exactly the machine's steps, for negative retry counts too |
| Client.SmartClient.PostCommand | command.go:85-96 | an empty command is refused before anything is sent; every hop has a reader of its own |
| Client.SmartClient.DoGet | client.go:149-171 | the transport loop of the establish GET: a result is the answer to the exchange just made; a negative retry count yields an empty answer without an exchange |
| Client.SmartClient.Establish | client.go:240-254 | what is stored is exactly what the answer to the last exchange of this call alone accounts for: the decoded document if it is accepted and has the catalog; any failure leaves the cache as it was; a refusal is reported with its own code; with negative retries nothing is exchanged |
| Client.SmartClient.EnsureEstablished | client.go:289-301 | a cached document is used unchanged; only an empty cache is filled, and with negative retries never |
| Client.SmartClient.Rebound | command.go:127-144 | after a bounce: always refresh, then go where the new cache says; a failed refresh or resolve ends the command |
| Client.HopsReachTheMember | routing.go:25-126 | the base URL a hop is posted to: writes go to the SOT member of the id's slot, reads to a listed reader, searches to the SOT or a reader, each at that member's own address or its rewrite |
| Client.VerdictExact | errors.go:97-118 | the verdict of an answer by its fields: ok, the code of its first error, or `unknown` if it has none |
| Client.SmartClient.OneHop | command.go:112-127 | what the answer of a hop leads to, by its fields: ok ends the command with its value, a first code of `wrongMachine` with a retry left bounces, every other first code ends it as that code, no code as `unknown`; without an answer it is a transport or local failure |
| Client.SmartClient.ExecuteRouted | command.go:105-146 | the bounce loop is a complete run of the machine ending in the outcome it returns; the fall-through return is never reached |
| Client.SmartClient.Command | crud.go:84-147 | a read or patch is a run of the machine from the cache lookup to the outcome returned |
| Client.FirstPostIsWhole | command.go:85-96 | the first POST of every hop offers the whole command, and so does every POST without transport retries |
| Files.DoMultipart | files.go:438-523 | one attempt reads the opened body from where it stands and takes one step of the machine, which demands that command and content be offered whole; without a body the request breaks off |
| Files.UploadHop | files.go:357-370 | what the answer of an upload attempt leads to, by its fields, as for a command |
| Files.ExecuteRoutedMultipart | files.go:342-389 | uploads run the same bounce machine, without transport retries around the POST |
| Files.EveryFilePostIsWhole | files.go:321-436 | every POST of an upload or download offers the complete command and content, wherever earlier attempts left the caller's reader; attempts whose body cannot be opened are recorded apart |
| Files.DoFileDownloadOnce | files.go:525-584 | by the fields of the answer: only status 206, or 200 with file headers, reaches the writer, after OnResponse; every other 2xx answer that decodes, and every other answer that decodes and says what is wrong, is an envelope; everything else a transport failure |
| Files.DownloadHop | files.go:405-418 | an envelope ends the download with its first code, or bounces it if that is `wrongMachine` and a retry is left |
| Files.ExecuteRoutedFileDownload | files.go:391-436 | over any number of bounces the writer gets bytes of one answer only, the last, which has status 206 or 200 with file headers; on success exactly its body; OnResponse runs at most once and before the first byte |
| Costs.RoutedCost | command.go:105-146 | with w bounce retries, t transport retries of a POST and u of a refresh, a finished call made at most (w+1)(t+1) POSTs and w(u+1) establish GETs and slept at most (w+1)·50·t·(t+1) ms between POSTs and w·50·u·(u+1) ms between GETs |
| Costs.CommandSleep | client.go:149-171 | for commands, where both retries are t, that is at most (2w+1)·50·t·(t+1) ms |
| Files.FileCost | files.go:342-436 | a finished upload or download made at most w+1 POSTs without a pause between them, and w(u+1) establish GETs |
| Costs.CostIsAttained | client.go:149-171 | for all w, t and u one run attains all four bounds together |
| Costs.NilErrorMeansAccepted | command.go:112-120 | success is only ever the verdict of the last event, a POST that answered ok |
| Costs.NegativeRetriesExchangeNothing | client.go:149-171 | with a negative retry count no run of a command, whole or from executeRouted on, has an exchange; one that finds the cache empty fails with `unknown` |
| Costs.ExchangeIffRetries | client.go:112 | a command can talk to a server if and only if its retry count is not negative |
| WriteSession.MoveKeepsInv | client.go:149-171 | over losses, late and stray requests, one write is executed at most once; ok means executed, a refusal other than malformed means never executed and nothing left that could be |
| VersionRetry.Serializable | crud.go:179-204 | any number of calls in any interleaving: the history is a fold of updates in commit order, each built from its immediate predecessor; no call commits twice, each success commits once; a call that came to no patch or whose patch was refused commits nothing, where without transport retries every failure but a transport error counts, and with them a refusal as malformed does not |
| VersionRetry.NoLostUpdates | crud.go:179-204 | successful increments are neither lost nor doubled: the counter lies between successes and calls |
| VersionRetry.ExecKeepsInv | crud.go:179-204 | the invariant behind both, on every reachable state |
| VersionRetry.SameVersionSameDocument | crud.go:179-204 | the server's compare-and-swap on `#` means the patch was built from the current document, however stale the read member |
| Json.StampSetsVersion | crud.go:179-204 | the version token is the document's "#", and storing one changes nothing else |
| VersionRetry.CommitKeepsHistory | crud.go:123-147 | a commit that passes the compare-and-swap extends the fold and keeps versions distinct |
| VersionRetry.ClusterFollowsCode | crud.go:179-204 | every interleaved call is always at a point the code can reach by itself |
| Calls.ReadAndPatch | crud.go:180-203 | one read, build and patch of the loop body, told by its commands: what it returns, and that the second round is due exactly if the patch was sent and refused as `versionMismatch` |
| Calls.PatchWithVersionRetry | crud.go:179-204 | told by its commands: at most two reads and two patches, each patch built from the read before it, reads to a read member and patches to the write member; a second round exactly if the first patch was refused as `versionMismatch`; the result is that of the last command, or a build error exactly if building from the last read failed; these are the turns of the interleaved model |
| Calls.ExecuteCreate | create_verify.go:11-85 | the code takes exactly the course of the interleaved model; its follow-up read has events if and only if that course has one; it waits three seconds, or as long as configured, after a lost create, and not at all for a negative delay |
| CreateVerify.CreateSafe | create_verify.go:29-57 | in every run each call commits at most once; success means the id has named a document; a success reported by the create itself means this call committed |
| CreateVerify.SoleCreatorOwnsTheDocument | create_verify.go:29-85 | if nobody else uses the id, success means this call's own content was committed exactly once and is all the id ever named |
| CreateVerify.SuccessMeansMineIffExclusive | create_verify.go:44-49 | for every create: in all its runs success means its own content was committed once, if and only if nobody else uses the id or the call cannot send or cannot read |
| CreateVerify.AdoptsAnothersDocument | create_verify.go:72-85 | the run behind the failing half, for every create that can send and read and every other document: it succeeds with that document and has committed nothing |
| CreateVerify.DuplicateIsNeverMine | create_verify.go:44-49 | in every run a call that was told of a duplicate id has committed nothing and has no request left that could: its success speaks of another's document |
| CreateVerify.RefusedMeansNotCommitted | create_verify.go:43-56 | an application error means nothing was committed and no request is left that could, unless it answers a truncated repetition |
| CreateVerify.RefusalsAreCleanIffNoRetries | client.go:149-171 | for every create: no run has it refused and yet committed, if and only if it has no transport retries or nothing to send |
| CreateVerify.RefusedAfterCommit | client.go:152-153 | the run behind the failing half, for every create with retries and a command: the answer to the commit is lost, the retry finds the reader at its end and is refused |
| CreateVerify.FollowUpRead | create_verify.go:11-70 | exactly when a create that was sent is followed by a read: after a duplicate id always, after a lost answer unless the context ends during a wait, which a negative delay rules out |
| CreateVerify.FollowUpDecides | create_verify.go:29-85 | how the call ends in every case: as the create did, unless there is a follow-up read and it finds a document |
| CreateVerify.ClusterFollowsCode | create_verify.go:29-85 | every interleaved create is always at a point of the course the code takes |
| Drift.BouncesBoundedByDrift | command.go:105-146 | bounces never exceed the configuration changes since the cached version; `wrongMachine` is returned only if those exceed the retries |
| Drift.DriftBeyondRetriesCanFail | command.go:105-146 | with one change more than retries a run does return it |
| Drift.ConfiguredRetriesSurvive | client.go:97-112 | so a client from `New` never returns `wrongMachine` for as many changes as it is configured for, or three if that is below one |
| Drift.ConfiguredRetriesRunOut | client.go:97-112 | and it can return it after one change more than that |
| CacheRuns.CacheIsSound | establish.go:55-70 | under any interleaving of calls that look, fetch, check, store and look again, the cache is empty or holds a document that some call fetched, parsed and catalog-checked, with an empty or exactly partitioning shard map |
| CacheRuns.NeverEmptyAfterSuccess | client.go:289-301 | in every interleaving a call that goes on, at once or after its own store, has a sound document in hand: the cache is never found empty after a fetch |
| CacheRuns.CacheOnlyMovesByStores | establish.go:66-70 | between any two moments of a run: once filled it never empties, and it differs only if something was stored in between |
| CacheRuns.FinishedAsAlone | client.go:240-254 | in every interleaving a call stores exactly what its answer alone accounts for, and one that failed stored nothing |
| CacheRuns.CatalogHeldIffUndisturbed | collection_client.go:81-96 | for every catalog, in all runs with any number of calls: a call for it goes on only with a document that has it, if and only if no other call stores between its own store and its second look, or the catalog is empty |
| CacheRuns.Overtaken | collection_client.go:81-96 | the run behind the failing half, for every catalog and every other document that lists its collections in other versions |
| Shard.PrefixExact | shard/shard.go:37-49 | the prefix is exactly what precedes the first period from position 6 on, or the whole id |
| Shard.SlotIsLowByte | shard/shard.go:15-19 | the slot is the low byte of the sum of the prefix |
| Shard.PrefixIdempotent | shard/shard.go:37-49 | the sharding prefix of a sharding prefix is itself |
| Shard.PrefixIgnoresTail | shard/shard.go:37-49 | whatever follows a qualifying period does not change the prefix |
| Shard.ValidateFullCoverage | shard/shard.go:107-123 | full if and only if every slot is in exactly one range; overlapping if and only if two ranges share a slot, naming where the first clashing range first meets an earlier one; missing names the least uncovered slot |
| Shard.ExactIsChain | shard/shard.go:107-123 | what the bitmap accepts, without a bitmap: the non-empty ranges sorted by start form a chain from 00 to FF, each beginning one past the end of the one before |
| Shard.ChainHits | shard/shard.go:102-104 | an ordered list covers every slot from a point on exactly once if and only if it is a chain from there |
| RangeText.ParseRangeExact | shard/shard.go:59-99 | a text parses to a range if and only if it is one slot, or two slots in order with a hyphen between them, each of one or two hexadecimal digits of either case with any blanks around it |
| RangeText.ParseSlotExact | shard/shard.go:89-99 | the same for a single slot |
| RangeText.WriteReads | shard/shard.go:59-87 | every non-empty range in its usual spelling (two upper-case digits a slot) reads back |
| Establish.CollectRanges | establish.go:137-144 | walking the map in any order lists every key once with its range, or names a key that does not parse |
| Establish.ExactIsPartition | establish.go:137-149 | the check on the list of ranges decides whether the map gives every slot exactly one key |
| Establish.ParseEstablishment | establish.go:72-151 | accepted if and only if the answer is ok, decodes throughout and its shard map is empty or an exact partition; the result is the decoded document; each error is reported for its own reason, overlap with a slot two keys share, a gap with the least slot no key covers |
| Establish.DecodedKeeps | establish.go:88-135 | the document has every part of the answer: the general block or its default, each server, each assignment, each schema version |
| Establish.CatalogExact | collection.go:91-128 | the catalog check asks that each collection be there with the very version |
| Establish.AssignmentForSlot | establish.go:154-168 | finds an assignment if and only if some key covers the slot; on an accepted document it is the same one whatever the order of the walk |
| Establish.OwnerIs | establish.go:154-168 | whichever key is found to cover a slot, its assignment is the slot's owner |
| Routing.PickReadMember | routing.go:68-90 | the preferred server if it is a read member, else the first read member, never a proxy or the SOT member as such |
| Routing.RouteDocument | routing.go:25-66 | on an accepted document the route is a function of the slot's owner, whatever the order of the walk |
| Routing.PickSearchMember | routing.go:97-112 | the preferred server if it is the SOT or a read member, else the SOT member, else the first read member |
| Routing.RouteSearch | routing.go:92-126 | the same for a search slot |
| Routing.OrdinaryRoutes | routing.go:25-90 | with an accepted non-empty shard map an ordinary id always has an owner; it fails if and only if the member's name or its base URL is empty, and says which; writes go to the SOT member, reads to a listed read member |
| Routing.RoutesReachTheMember | routing.go:25-126 | every document and search route is to the chosen member at its own address: its URL in the document or the rewrite for it, less the slashes at its end; it fails exactly if there is no name or no URL |
| Routing.MembersExact | routing.go:68-112 | who is chosen for a read, a search and a write |
| Routing.OtherRoutes | routing.go:25-38 | a command for the id "" or "null" goes to the preferred server, else to the one that served the document, at its address or the configured one |
| Routing.RewriteAddresses | client.go:137-147 | a rewrite by server name counts before one by URL, empty ones count as none; only slashes at the end are cut off |
| Routing.ProxiesNeverMatter | routing.go:68-126 | emptying every proxy list changes no document or search route |
| Routing.RoutingSeesOnlyAssignments | routing.go:25-126 | two accepted documents that assign every slot alike give every id and every search slot the same route |
| Routing.AgreeingMapsAssignAlike | establish.go:154-168 | two accepted shard maps assign every slot alike if and only if ranges that meet have the same assignment, however each map is cut into ranges and spelled |
| Routing.SplittingARangeChangesNothing | establish.go:154-168 | splitting a range in two, however the keys are spelled, keeps the document accepted and every document and search route the same |
| Routing.SplitAnywhere | establish.go:154-168 | every range of an accepted document can be split like that after any of its slots but the last |
| Routing.RewritesHideURLs | client.go:137-147 | a rewrite by server name makes the route independent of the URL the document has; no base URL ends in a slash |
| Routing.SamePrefixSameRoute | shard/shard.go:15-19 | ids that share a sharding prefix are routed alike |
| Resolve.KindExact | resolve.go:38-47 | by its text: a field is followed exactly if it is a printed direct reference but for blanks, cached ones are skipped, and what begins like a reference and is none is an error |
| Resolve.PointsExact | resolve.go:36-47 | so the graph the following is about is that of the texts |
| Resolve.ErrorsExplained | resolve.go:42-56 | an error names a misspelled reference in a document within reach or the target within reach whose read failed, which was the last; a misspelled reference in the document itself is never overlooked |
| Resolve.NothingToResolve | resolve.go:25-68 | a document without direct references resolves nothing, cached references or not |
| Resolve.ResolveSound | resolve.go:25-68 | for every field order and cyclic graphs too: every entry was read from a target at most max(1, `maxDepth`) references away, no key is read twice, and without an error exactly the keys seen are resolved |
| Resolve.ResolveComplete | resolve.go:25-68 | if nothing fails, collections contain no slash and `maxDepth` is at least the number of reachable targets, the result has exactly the reachable keys, for every field order |
| ResolveLimits.AllResolvedIff | resolve.go:25-68 | every call that can reach at most n targets, with nothing failing, resolves all of them if and only if n is at most `maxDepth` |
| ResolveLimits.NearResolvedIff | resolve.go:31-66 | every such call resolves all targets within `maxDepth` references if and only if n is at most `maxDepth` or `maxDepth` is one |
| ResolveLimits.LimitBelowCountMisses | resolve.go:25-68 | a chain of documents one longer than the limit loses its last target, in every field order |
| ResolveLimits.NearTargetsCanBeMissed | resolve.go:31-66 | for every limit above one, a root that refers to the first and the last but one of such a chain loses the last target, two references away |
| Resolve.KeyInjective | resolve.go:48 | keys of targets whose collections contain no slash are distinct |
| Resolve.Walker.Run | resolve.go:31-66 | the recursive closure over the shared maps computes the walk, and ends by the measure `maxDepth - depth` |
| Resolve.ResolveRefsInSOT | resolve.go:25-68 | the call as a whole, with `maxDepth` raised to one |
| Refs.ParseInvertsFormat | refs/refs.go:26-63 | a string parses to a reference if and only if its trimmed form is that reference printed and the components are printable |
| Refs.ParseTotal | refs/refs.go:26-53 | a string that begins with neither mark is no reference; one that does and is no printed reference is invalid |
| Refs.FormatReadsBack | refs/refs.go:56-63 | a printed reference reads back if and only if both parts are non-empty, the collection neither contains two underscores in a row nor ends in one, and the id does not end in white space |
| Refs.ImagesAreDisjoint | refs/refs.go:56-63 | no string is both a direct and a cached reference |
| SearchPath.EqualsStringSegments | searchpath/searchpath.go:44-50 | every segment reads back as its value |
| SearchPath.WrittenForm | searchpath/searchpath.go:14-30 | a string is written as two upper-case hexadecimal digits a byte, the empty one and the other values as their words |
| SearchPath.SegmentRoundTrips | searchpath/searchpath.go:14-30 | every encoded value reads back, is not empty and has no slash; hexadecimal text collides with none of `empty`, `true`, `false` and `null` |
| SearchPath.PathRoundTrips | searchpath/searchpath.go:33-35 | a joined path of any values reads back |
| SearchPath.PathsAreInjective | searchpath/searchpath.go:33-35 | different value lists have different paths |
| ByteRange.ParseBound | files.go:211-222 | accepts exactly the non-empty digit strings below 2^63, with any number of leading zeros, and yields their value |
| ByteRange.PositionsAreInt64 | files.go:211-222 | a decimal number, with any number of zeros before it, is a position if and only if it is at most 9223372036854775807 |
| ByteRange.CheckBounds | files.go:208-246 | the checks on the texts left and right of the hyphen accept exactly the valid ranges, and say which rule failed |
| ByteRange.ValidateFileByteRange | files.go:197-247 | accepted if and only if the string is a printed int-range or suffix-range of RFC 9110, sections 14.1.1 and 14.1.2; reported as reversed if and only if it is two good positions in the wrong order |
| FrontPage.SummariesForArrayField | frontpage.go:38-72 | fails exactly on a non-array or, at the first malformed element, with its text; otherwise the summaries of the elements in order; a missing field gives none |
| FrontPage.LookExact | frontpage.go:47-69 | an element shows exactly the summary kept for the cached reference it spells, an object with a "#" that is not null; it is malformed exactly if it begins like a reference and is none |
| FrontPage.CollectPicks | frontpage.go:38-72 | the result comes from a rising list of positions which has every position with a summary: nothing is invented, dropped or moved |
| FrontPage.CollectConcat | frontpage.go:38-72 | the summaries of a concatenation are the concatenation of the summaries |
| FrontPage.AppendedAtTheEnd | frontpage.go:16-22 | applied as an `add` (RFC 6902, section 4.1; RFC 6901, section 4) the operation puts the reference at the end of the named array and changes nothing else |
| FrontPage.AppendAddsOneSummary | frontpage.go:16-72 | after an append the summaries are the old ones and then, if it is known, exactly the one of the new reference |

## Left out

- HTTP: framing, headers, tokens, status codes outside downloads, body-size limits, multipart framing with its pipe goroutine. An exchange is an arbitrary choice of answer, loss or local error.
- JSON encoding and decoding, command marshaling and trimming: bodies are given as already trimmed bytes; an empty body stands for a command that cannot be built.
- CRC-32: a parameter. Operation ids and minted document ids do not appear.
- `ensureOperationID`, `cloneMap`, `BuildCommand` and the field copying of the result types.
- Real time: pauses are counted in milliseconds, not waited for.
- Strings that are not valid UTF-8; strings are sequences of Unicode characters, search values sequences of bytes.
- Result fields beyond ok, the error code and the document; `SlotHex` of a route and `Raw` of a range.
- Schema documents, searches and authentication in the establishment document; the checks for empty collections and ids at the entry points.
- Deletion and re-creation inside a `VersionRetry` history: its history is one life of a document.
- Monotonicity of the cached version under overlapping `Establish` calls: the last writer wins, so it does not hold.
- Other goroutines changing the cache during one run of `Client.SmartClient.ExecuteRouted`: the methods run alone. What the cache can then hold is in `CacheRuns`; that the machine's bounds do not depend on it follows from its free choice of route.
- Array indices in JSON pointers, and `test` of the patch operations: only `add` to object members and to the end of an array.
- Go map iteration: an arbitrary choice in the lookups, an arbitrary order function in the reference walk.
- Administration, token helper, command-line programs and test scenarios.
