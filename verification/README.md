# Inverting proxy: a verified model

The inverting proxy turns the direction of traffic around: an agent next to a backend polls a public
proxy for pending client requests, fetches each one, lets the backend answer it, and posts the answer.
What has to hold is that requests, responses and byte streams stay matched while many parties act at
once. This project states that in Dafny and proves it, for all inputs and for all runs.

`dafny verify dfyconfig.toml` checks the whole project.

| module | what it models |
|---|---|
| `Rendezvous` | the stand-alone proxy and its polling agents, as a step relation over every interleaving |
| `RendezvousRuns` | the same against the steps of a run: what it registers, answers, posts and copies, and that every request can be answered |
| `Quoting` | Go's `%q` and the cache and store keys built with it |
| `AppProxy` | the App Engine proxy over a cache that may lose anything at any time and a keyed store, with every put and get as a step of its own |
| `AppReads`, `AppMixing`, `AppCompletion` | what its reads return, when responses can be mixed, and when a completed request is listed again |
| `AppRuns` | the same against the calls of a run, and that every request can be answered |
| `BlobStore` | byte strings split over datastore fields |
| `Backends` | routing by longest prefix, liveness by the clock, clean-up of backends and requests |
| `BackendRuns` | the same against the steps of a run |
| `ReplayBuffer` | the replayable reader and the retry loop that posts a response |
| `ResponseWriter` | the streaming response writer with its headers and trailers |
| `Codecs`, `ShimMessages`, `ShimDownstream`, `ShimUpstream` | websocket messages carried over HTTP requests, in both directions |
| `Injection` | adding headers to JSON messages |
| `Bridge` | TCP as hexadecimal websocket messages |
| `SeenRequests` | the agent's polling loop and its least-recently-used cache |
| `Sessions` | session cookies and one cookie jar per session |

The concurrent parts are state machines: a `State` datatype whose history fields record what was sent
and received, a `Step` datatype with one constructor per atomic action, `Enabled` and `Next`, and an
invariant that every step keeps. `Legal(s, run)` says that `run` is a run from `s`, and `Final(s, run)` is
where it ends; `Reaches(env, s, t)` says that some run leads from `s` to `t`. A history is a record that a
step makes, so the main guarantees are also stated against the run: what a step of it names is what
arrives, and what it asks for can be done. Code that works in place is a class or a method with a loop,
proved against a specification about which the lemmas speak.

## Where the code does not keep a promise

Each of these has a concrete witness and, beside it, the exact condition under which the promise holds.

- The request that reaches the backend is the client's (README.md:82-84) if and only if no GET for it
  failed after it had read from the body or broke off before its end: the body reader is not rewound, so
  a retried GET carries only the rest, and the handler of the failed GET may go on reading beside it,
  which leaves a hole in the middle. `LostGetMakesHole`, `ClientGetsAnswerToItsRequest`.
- A response of a million bytes or more need not be one that was posted: the parts of all replies to a
  request are stored under the same names, so two replies can be mixed. Whatever is returned is put
  together from replies of the right backend; and given which contents are posted to a request, what is
  returned is always one of them if and only if no mixture of them is anything else, as when all are small
  or all agree. `TwoLargeRepliesCanMix`, `NeverMixedExactlyIfClosed`, `ResponseComesFromOwnBackend`.
- A stored request is found by a read that misses the cache if and only if all of its parts have survived
  the clean-up. `LostPartIsFelt`, `StoredRequestIsFoundExactlyIfPartsSurvive`.
- A completed request can be listed again if an agent answers an ID that it was not listed, since the
  cached copy is visible before the store write of `postRequest`. From any state in which an answered
  request is not pending, some later list contains it if and only if the put of that entity has not been
  made, or was reported as failed and may still land. `CompletedCanRevert`, `OnlySubmitterReverts`,
  `ListedAgainExactlyWhenOvertaken`.
- The clean-up of backends does not look again after it has made its list, so it removes a backend that
  polled since; it spares every backend whose tracker was not written in between.
  `CronCanRemoveLiveBackend`, `CronRemovesRecentExactlyWhenTouched`.
- A reader that reports its end on a call without room makes a replay through small buffers end early.
  The end is reported at the end if and only if the buffer has room for all that is to be replayed.
  `ReplayCanEndEarly`, `BufferedReadSeeker.Read`.
- `postResponseWithRetries` returns nil if and only if the last POST got some answer, and so also when
  that answer is a 5xx one, which is the case after three of them, or after one when the replay buffer is
  full. `NilAfterServerErrors`, `PostResponseWithRetries`.
- Values are copied in `WriteHeader` so that later edits do not reach the sent response
  (agent/utils/utils.go:502-504), but the copy is shared: the response holds what was sent if and only if
  the last later edit, if there is one, put that there. `SentHeaderIsShared`, `ServeAndClose`.
- Hop-by-hop names are compared before they are made canonical, so `te` gets through where `Te` does
  not. `DisguisedNamesExist` and the two lemmas named `...HopFreeExactlyWhenUndisguised`.
- A shimmed text message arrives unchanged if and only if it is valid UTF-8, and with protocol version 0
  so does a binary one. `WireCarriesMessage`, `VersionZeroCarriesExactlyUtf8`, `VersionZeroLosesBinary`.

## Model

| member | source | states |
|---|---|---|
| `Rendezvous.StepKeepsInv` | server/server.go:112-189 | every step of a frontend handler, a list call, an agent's job or a post keeps the invariant that ties table, listings, jobs, forwarded requests, posts and receipts together |
| `Rendezvous.RunKeepsInv` | server/server.go:261-294 | the invariant holds in every reachable state |
| `Rendezvous.ResponsesMatchClients` | server/server.go:112-150 | in every run a client has at most one response, posted under its own ID; no post reaches two clients; a post counts as sent exactly if its client has it |
| `Rendezvous.NothingAfterReturn` | server/server.go:261-294 | a receipt never changes and its bytes only grow, and a handler that has returned receives nothing more, not a response and not a byte of one, even from a post that looked its entry up before |
| `Rendezvous.JobsHaveDistinctIds` | agent/agent.go:193-232 | in every reachable state two jobs have different request IDs, whichever agents run them |
| `Rendezvous.ListedOnceAndWhileRegistered` | server/server.go:167-189 | an ID is listed only while its request is in the table, and never a second time |
| `Rendezvous.ForwardedAtMostOnce` | agent/agent.go:151-204 | with any number of agents, the backend is sent each client request at most once |
| `Rendezvous.JobStepKeepsBodyInv` | server/server.go:152-165 | every byte of a request's body is in its reader, with the present GET, or out of the job's reach, and in order while none is lost |
| `Rendezvous.SpilledExactlyWhenLost` | agent/utils/utils.go:248-268 | bytes of a body are out of reach exactly if some GET for its ID failed after it had read from the body, or broke off before its end |
| `Rendezvous.ClientGetsAnswerToItsRequest` | README.md:82-84 | a client that has an agent's response has, from its first byte on, the backend's answer to the one request forwarded under its ID, and all of it exactly if a whole post was copied to its end; that request is the registered one if and only if no GET lost a part of the body |
| `Rendezvous.LostGetMakesHole` | server/server.go:152-165 | a run in which the backend is sent the client's body without its middle |
| `RendezvousRuns.RunIsRecorded` | server/server.go:112-294 | what the state has of requests, answers, forwards, posts and copied bytes is exactly what the steps of the run name |
| `RendezvousRuns.ClientGetsAnswerOfRun` | README.md:82-84 | if the run registers a request and its client has an agent's response, then the run has a backend's answer of which the client has exactly the bytes that the run copies to it, from the first on; the one request forwarded for it is the registered one if and only if no GET lost a part of the body |
| `RendezvousRuns.FoundExactlyUntilGone` | server/server.go:112-121 | a post finds its entry if and only if the handler is there and has not gone |
| `RendezvousRuns.AnswerCanBeDelivered` | server/server.go:122-150 | from every reachable state, a client that waits for an answered request can be handed all of the answer |
| `RendezvousRuns.EveryRequestCanBeAnswered` | server/server.go:261-294 | from every reachable state, a new request can be forwarded as it is and its client be given all of the answer |
| `RendezvousRuns.AtMostThreeGets` | agent/utils/utils.go:248-268 | a job asks for its request at most three times in a run, and may ask again after fewer than three failures |
| `RendezvousRuns.CancelledGetsNothing` | server/server.go:277-294 | once the run cancels a request or ends its copying, no post can be sent and no byte copied to that client |
| `RendezvousRuns.LostAndDroppedStaySo` | server/server.go:138-141 | no job starts from a lost list or a skipped ID, and no dropped post is sent |
| `RendezvousRuns.AnythingMayFail` | server/server.go:112-294 | clients, lists, GETs, jobs and posts may fail at any point, and anyone may post |
| `Quoting.ParseHexDigits` | app/cache/cache.go:51-53 | the fixed-width hexadecimal escapes of `%q` can be read back |
| `Quoting.UnescapeEscape` | app/cache/cache.go:51-53 | every escape of `%q` can be read back and tells where it ends, whatever follows it |
| `Quoting.UnquoteQuoted` | app/cache/cache.go:51-53 | a quoted string can be read back from the front of any text |
| `Quoting.QuotedPrefixInjective` | app/cache/cache.go:51-53 | two texts that start with quoted strings are equal only if the strings and the rests are |
| `Quoting.QuotedPairInjective` | app/cache/cache.go:51-53 | `%q:%q` identifies the pair, whatever quotes, colons and backslashes the two strings hold |
| `Quoting.RequestKeyInjective` | app/cache/cache.go:51-53 | request keys are equal exactly if backend and request ID are |
| `Quoting.ResponseKeyInjective` | app/cache/cache.go:81-83 | response keys are equal exactly if backend and request ID are |
| `Quoting.KeySpacesDisjoint` | app/cache/cache.go:51-83 | no request key is a response key, and neither is a key of the cached pages of app/proxy.go:325 |
| `Quoting.RequestKindInjective` | app/store/store.go:158-160 | the datastore kind identifies the backend, and is never the kind of responses |
| `Quoting.KeysLookLike` | app/cache/cache.go:51-83 | for text without escapes, the keys and the kind as the format strings make them |
| `AppProxy.KeysTellKindsApart` | app/cache/cache.go:51-105 | though decoding would take a request for a response, a response for a request or a page for either, what is read under a key, in the cache or in the store, is always of the kind and of the request that its reader asks for |
| `AppProxy.FetchKeepsLoad` | app/store/store.go:125-146 | the part that a read gets under a name is the part of that number of some value of the same request and kind |
| `AppProxy.RequestIsWhole` | app/store/store.go:186-208 | the parts of a stored request, whichever writes put them, make up the submitted contents |
| `AppProxy.WriteStepKeepsInv` | app/store/store.go:166-184 | every cache set, part put and entity put, also one that was reported as failed, keeps the invariant |
| `AppProxy.ReadStepKeepsInv` | app/cache/cache.go:66-105 | every look into the cache and every get of an entity or of a part keeps the invariant |
| `AppProxy.StepKeepsInv` | app/proxy.go:87-158 | every step of submitters, agents, reads, writes, eviction, expiry and page caching keeps the invariant on cache, store, parts and calls |
| `AppProxy.RunKeepsInv` | app/proxy.go:66-158 | the invariant holds in every reachable state |
| `AppReads.ForeignReplyIsRefused` | app/proxy.go:132-140 | in every reachable state, a reply from a backend that its request was not routed to has not got past `ReadRequest` and has started no write |
| `AppReads.CachedReadsAgreeWithWrites` | app/cache/cache.go:55-75 | whatever a reply's read finds, with any steps between its own and any loss, is what was submitted for that backend and ID: user, contents and start time |
| `AppReads.StoredRequestIsFoundExactlyIfPartsSurvive` | app/store/store.go:186-208 | an uninterrupted read that missed the cache finds the request if and only if its entity and all of its parts are stored |
| `AppReads.ResponseIsMadeOfOwnReplies` | app/proxy.go:87-106 | whatever `waitForResponse` returns is put together from the inlined bytes of one reply and, for each part, the part of that number of one, all to this request and by the backend it was routed to |
| `AppReads.ResponseComesFromOwnBackend` | app/proxy.go:87-106 | a returned response that fits one field, and any if all accepted replies to the request agree, was posted with those contents by the backend the request was routed to |
| `AppReads.ClosedIsNeverMixed` | app/store/store.go:223-240 | if no mixture of the posted contents is anything else, one of them is returned |
| `AppMixing.MixtureIsReturned` | app/store/store.go:59-103 | every mixture of a large response with parts of others is returned in some run in which just these were posted |
| `AppMixing.NeverMixedExactlyIfClosed` | app/store/store.go:223-240 | for any set of contents: what is returned is always one of them if and only if no mixture of them is anything else |
| `AppMixing.SmallIsClosed` | app/store/store.go:105-123 | that is so if all contents fit one field, and if there is only one |
| `AppMixing.TwoLargeRepliesCanMix` | app/store/store.go:223-240 | a run with two replies of a million and one bytes in which the returned response is neither |
| `AppCompletion.StepKeepsCompletion` | app/store/store.go:288-316 | a step of a run in which agents answer only what they were listed makes no completed request pending |
| `AppCompletion.CompletedIsNeverListedAgain` | app/proxy.go:132-158 | in such a run, a request whose completion was written is on no later list |
| `AppCompletion.PendingExactlyByOwnPut` | app/store/store.go:166-184 | a step makes a request pending if and only if it is the put of its submitter's own entity |
| `AppCompletion.OnlySubmitterReverts` | app/proxy.go:108-114 | a step makes an answered request that is not pending, still stored or not, pending again if and only if it is that put, reported as a success or not |
| `AppCompletion.ListedAgainExactlyWhenOvertaken` | app/proxy.go:108-158 | from a reachable state in which a request was answered, some later list contains it if and only if it is pending by now or its submitter's entity may still be put |
| `AppCompletion.CompletedCanRevert` | app/proxy.go:132-158 | without the condition on agents the claim is false, by a run |
| `AppRuns.RunIsRecorded` | app/proxy.go:108-158 | the submissions, replies and listings of the state are exactly those that the calls of the run name |
| `AppRuns.RequestsAreAsSubmitted` | app/proxy.go:108-114 | if the run submits a request, every cached or stored copy of it, and whatever any reply reads for it, has just that backend, user, contents and start time |
| `AppRuns.ResponseIsPostedInRun` | app/proxy.go:87-106 | a returned response below a million bytes, or any if the replies agree, is one that the run posts in those bytes, for this request and by the backend it was submitted to |
| `AppRuns.CompletedIsNotListedNext` | app/proxy.go:132-158 | if every reply of the run follows a list of the run with its ID, a request whose completion was written is on no list that can come next |
| `AppRuns.EveryRequestCanBeAnswered` | app/proxy.go:87-158 | from every reachable state, a new request of any size can be read by a reply, and the reply's answer of any size be returned as it was posted |
| `AppRuns.RefusedWaiterGetsAnswer` | app/proxy.go:87-106 | a waiter that was refused asks again and is given the answer stored in the meantime |
| `AppRuns.ReturnedIsNotEmpty` | app/proxy.go:96-98 | an empty response is never returned |
| `AppRuns.CachedExactlyIfSmall` | app/cache/cache.go:56-64 | a cache set keeps a value, and a reader is given it, exactly if its contents are below a million bytes |
| `AppRuns.ListsPendingOnly` | app/store/store.go:288-316 | a list may hold any stored requests of the backend that are not completed, up to a hundred, and nothing else |
| `AppRuns.FailedPartIsFinal` | app/store/store.go:97-102 | a submission one of whose parts failed never puts its entity |
| `AppRuns.LostPartIsFelt` | app/store/store.go:138-141 | a read that gets to a part that has expired is refused |
| `BlobStore.DecimalRoundTrip` | app/store/store.go:72 | the number in a part name can be read back |
| `BlobStore.PartNameInjective` | app/store/store.go:72 | part names are equal exactly if blob name and number are |
| `BlobStore.BlobNameInjective` | app/store/store.go:166-178 | blob names are equal exactly if request ID and role (request or response) are |
| `BlobStore.PartsNeverCollide` | app/store/store.go:223-231 | parts of different blobs never share a name, whatever the IDs contain |
| `BlobStore.PartNameLooksLike` | app/store/store.go:72 | the names of the parts of a request's and of a response's blob |
| `BlobStore.JoinPartsFrom` | app/store/store.go:138-145 | the written parts from any number on, joined, are the bytes from that offset on |
| `BlobStore.ReadIsExactOrFails` | app/store/store.go:125-146 | a read returns exactly what was written if every part is there and fails if one is missing |
| `BlobStore.AssembledSame` | app/store/store.go:125-146 | parts put by different writings of the same bytes make up those bytes |
| `BlobStore.Datastore.WriteBlobParts` | app/store/store.go:59-103 | succeeds exactly if every put does; each part that is put holds its slice, its name and the time, and no more bytes than the limit; nothing else changes |
| `BlobStore.Datastore.NewBlob` | app/store/store.go:105-123 | a blob that was made reads back as the bytes it was made from, at every length; no other entity changes |
| `BlobStore.Datastore.Read` | app/store/store.go:125-146 | the loop computes the specified read, with the error if a part is missing |
| `BlobStore.PresentExactlyIfSurvives` | app/store/store.go:59-103 | after any run of puts and deletions an entity is there exactly if its last operation was a put, or it was there and was not deleted |
| `BlobStore.ReadAfterRun` | app/store/store.go:125-146 | after any run, a blob that is written only with the same bytes reads as those bytes if each of its parts survived, and fails otherwise |
| `BlobStore.BlobsDoNotDisturbEachOther` | app/store/store.go:59-103 | a blob that reads as its bytes still does after any run of writes for any blobs that deletes none of its parts |
| `Backends.MostSpecificMatchingBackend` | app/store/store.go:577-594 | finds the first of the longest matching prefixes, and fails exactly if none matches |
| `Backends.LongestExists` | app/store/store.go:577-594 | if anything matches, there is a first longest match |
| `Backends.BestMatchIs` | app/store/store.go:577-594 | the first longest match is unique |
| `Backends.LookupBackend` | app/store/store.go:596-628 | the user's backends decide, the shared ones only if none of the user's matches, and the winner must be live |
| `BackendRuns.LiveExactlyIfPolledRecently` | app/store/store.go:461-488 | a backend is live if and only if the last step of the run that polls, adds or deletes it is a poll that read the clock less than 300 seconds before the run's end |
| `BackendRuns.DefinedExactlyIfLastAdded` | app/store/store.go:516-575 | a backend is defined if and only if the last step of the run that adds or deletes it is an add, and as added; a deletion removes the definition and the tracker |
| `BackendRuns.LookupReturnsPolledBackend` | app/store/store.go:596-628 | a lookup, with other steps between its reads, returns only a longest match that by the end of the run has polled recently |
| `BackendRuns.PolledBackendIsReturned` | app/store/store.go:596-628 | a lookup returns the first longest match of the user's backends, or of the shared ones if the user has none, exactly if it has polled recently |
| `Backends.LookupIsLongestAndLive` | app/store/store.go:596-628 | with other steps between its three reads, a lookup returns only a longest-prefix match that polled within five minutes and after its last add or delete |
| `Backends.RunKeepsInv` | app/store/store.go:516-575 | in every run each tracker says what the last event left there, and what a clean-up listed and nobody touched is over an hour old |
| `Backends.CronSparesRecentBackends` | app/store/store.go:381-427 | a clean-up removes nothing added or polled within 55 minutes, if its tracker was not written since the list was made |
| `Backends.CronRemovesRecentExactlyWhenTouched` | app/store/store.go:416-427 | a clean-up removes a recent backend exactly if a tracker write with a recent clock reading landed after its list; if it deletes within 55 minutes and readings are not older than that list, exactly if any write did |
| `Backends.CronCanRemoveLiveBackend` | app/store/store.go:416-427 | a run in which a clean-up is about to remove a live backend |
| `BackendRuns.ListedIsOld` | app/store/store.go:381-427 | what a clean-up of the run lists and no later step touches was last polled more than 3600 seconds ago, or added more than 3300 |
| `BackendRuns.RemovesRecentExactlyIfTouchedSince` | app/store/store.go:416-427 | a clean-up of the run removes a recent backend only if a step since its listing touched it, and exactly then if it is prompt |
| `BackendRuns.UntouchedIsOfRun` | app/store/store.go:381-427 | a listed backend counts as untouched exactly if no step of the run since has touched it |
| `Backends.RequestStore.DeleteRequestsForBackend` | app/store/store.go:349-365 | the loop terminates within one query a page and one more, and fails exactly if one of the operations made does; on success the store is the old one less exactly the backend's requests older than the cutoff, with just what other writers put before each query; on failure only such requests are gone |
| `Backends.DeletionShrinks` | app/store/store.go:349-365 | deleting keys leaves that many fewer expired requests, whatever is inserted that is not expired |
| `Backends.PageShrinks` | app/store/store.go:349-365 | every round leaves fewer expired requests and one page less of them |
| `Backends.OneMorePage` | app/store/store.go:355-358 | a deleted page consists of expired requests of the original store, never of inserted ones |
| `Backends.AllGone` | app/store/store.go:355-364 | when the query comes back empty, exactly the expired requests of the original store are gone |
| `ReplayBuffer.BufferedReadSeeker.constructor` | agent/utils/utils.go:315-322 | a new reader is at position 0 |
| `ReplayBuffer.BufferedReadSeeker.Read` | agent/utils/utils.go:331-341 | returns exactly the source's bytes from the logical position, over any short-reading source; a reported end is the end exactly if the buffer had room for all that was to be replayed |
| `ReplayBuffer.BufferedReadSeeker.Seek` | agent/utils/utils.go:343-355 | succeeds exactly for an offset inside the buffer while the buffer is not full, and then every byte ever taken can be replayed; the reader stays usable exactly if the offset is not beyond the write head |
| `ReplayBuffer.Do` | agent/utils/utils.go:367-373 | what one POST sends is exactly what its reads amount to: their position, what they take from the source and in how many calls, and whether the end is reported |
| `ReplayBuffer.ReplaysWhatWasTaken` | agent/utils/utils.go:331-341 | a reading that does not end gets back to where the last one stood, or as far as its buffers go |
| `ReplayBuffer.PostResponseWithRetries` | agent/utils/utils.go:357-406 | between one and three POSTs, each of which sends, from byte 0, exactly what its reads amount to after the ones before; another one is made if and only if there were fewer than three, less than 4096 bytes have been taken, and this one ended in a transport error or a status from 500 to 599; nil exactly if the last one got an answer |
| `ReplayBuffer.NilAfterServerErrors` | agent/utils/utils.go:397-405 | nil although all three POSTs were answered with 503 |
| `ReplayBuffer.ReplayCanEndEarly` | agent/utils/utils.go:331-341 | a replay that reports its end before the end |
| `ResponseWriter.AddEach` | agent/utils/utils.go:496-508 | a loop over a header adds, under each canonical name, the values of the names that become it, in one of the orders Go may choose |
| `ResponseWriter.GatheredSomething` | agent/utils/utils.go:496-508 | such a loop adds something under a name exactly if some key with values becomes that name |
| `ResponseWriter.CanonicalIsIdempotent` | agent/utils/utils.go:489-493 | a canonical name is its own canonical form, so adding to a trailer and looking up its header go by the trailer's own name |
| `ResponseWriter.CanonicalLooksLike` | agent/utils/utils.go:489-493 | a canonical name is in upper case at its start and after each hyphen, and in lower case elsewhere |
| `ResponseWriter.StreamingResponseWriter.Declare` | agent/utils/utils.go:474-494 | an empty trailer for exactly the declared names that are not hop-by-hop as written |
| `ResponseWriter.StreamingResponseWriter.WriteHeader` | agent/utils/utils.go:468-534 | the first call sends at most one response with the filtered header, in a new map that the response and the writer share; later calls change nothing |
| `ResponseWriter.StreamingResponseWriter.Write` | agent/utils/utils.go:536-541 | the bytes are appended to the body exactly if both ends of it are open, after status 200 if nothing was sent before |
| `ResponseWriter.StreamingResponseWriter.CloseWithError` | agent/utils/utils.go:571-573 | closes the reading end and changes nothing else |
| `ResponseWriter.StreamingResponseWriter.Close` | agent/utils/utils.go:543-569 | the trailers are the declared ones with their header values, then the prefixed values |
| `ResponseWriter.OneMoreCall` | agent/utils/utils.go:468-541 | how one more call changes the first status and whether the response is settled |
| `ResponseWriter.OneMoreSending` | agent/utils/utils.go:536-573 | how one more call changes the body: bytes count until the reader fails |
| `ResponseWriter.DeliveredIsAll` | agent/utils/utils.go:536-541 | as long as the reader does not fail, the body is the concatenation of all writes |
| `ResponseWriter.ServeAndClose` | agent/agent.go:162-173 | for every sequence of edits of the present or of a kept header, statuses, writes and reader failures and one close: one response if it is taken and none if not, with the first status, the header of that moment less what was filtered, the writes before a failure as body, and trailers from the declared names and the last header; the response's header is by then the last later edit |
| `ResponseWriter.SentHeaderIsShared` | agent/utils/utils.go:502-508 | a response whose header changes after it was sent |
| `ResponseWriter.HeaderIsHopFreeExactlyWhenUndisguised` | agent/utils/utils.go:496-508 | the sent header has a hop-by-hop name (section 13.5.1 of RFC 2616) exactly if one was set in a form that is not canonical |
| `ResponseWriter.CanonicalHeaderIsKept` | agent/utils/utils.go:496-508 | with canonical names the sent header is the written one less the hop-by-hop names |
| `ResponseWriter.SentExactlyIfNotHopByHop` | agent/utils/utils.go:97-107 | with canonical names a header is sent if and only if it has values and is none of the nine hop-by-hop ones |
| `ResponseWriter.TrailersAreHopFreeExactlyWhenUndisguised` | agent/utils/utils.go:543-569 | the same for trailers, declared or prefixed |
| `ResponseWriter.TrailerIsDeclaredThenPrefixed` | agent/utils/utils.go:547-567 | with canonical prefixed names, a trailer is its declared values followed by its prefixed values |
| `ResponseWriter.DisguisedNamesExist` | agent/utils/utils.go:496-508 | a header set as `te` is sent as `Te`, which is hop-by-hop |
| `Codecs.HexRoundTrip` | utils/tcpbridge/connection/connection.go:59-87 | hexadecimal (section 8 of RFC 4648) decodes what it encoded |
| `Codecs.HexLooksLike` | utils/tcpbridge/connection/connection.go:82-87 | each byte gives its high and then its low digit in the lower-case alphabet |
| `Codecs.Base64RoundTrip` | agent/websockets/connection.go:40-52 | base64 (section 4 of RFC 4648) decodes what it encoded, for every byte string and padding |
| `Codecs.Base64LooksLike` | agent/websockets/connection.go:40-52 | each three bytes give four characters, highest bits first, and the last ones padding |
| `Codecs.Base64AlphabetIs` | agent/websockets/connection.go:40-52 | the alphabet is that of section 4 of RFC 4648 |
| `Codecs.SanitizeKeepsExactlyValid` | agent/websockets/connection.go:40-52 | JSON text carries a string unchanged exactly if it is valid UTF-8 |
| `Codecs.NothingDecodesToItself` | server/server.go:336-351 | base64 decodes a string that JSON carried to the string itself only if it is empty |
| `ShimMessages.WireCarriesMessage` | server/server.go:336-351 | with a version other than 0, both receivers read back the same kind, and the same bytes exactly if the message is binary or valid UTF-8 |
| `ShimMessages.VersionZeroCarriesExactlyUtf8` | agent/websockets/connection.go:203-249 | with version 0 a receiver of that version gets a binary message exactly if it is valid UTF-8, and one that decodes base64 only the empty one |
| `ShimMessages.VersionZeroLosesBinary` | agent/websockets/connection.go:40-52 | with version 0 some binary message does not come through |
| `ShimDownstream.RunKeepsInv` | agent/websockets/connection.go:126-147 | what the backend sent is conserved in queues, polls and the client's messages at every step, up to the first failed poll |
| `ShimDownstream.ClientGetsPrefixOfBackend` | server/server.go:507-537 | in every run the client's messages are an in-order prefix of the backend's, without gaps or repeats, of the same kinds and, exactly for binary and valid text, the same bytes |
| `ShimDownstream.ClientGetsPrefixOfRun` | server/server.go:507-537 | the same against the messages that the steps of the run name |
| `ShimDownstream.EveryMessageCanArrive` | agent/websockets/connection.go:257-283 | whatever messages the backend sends, the client can be sent all of them |
| `ShimDownstream.QueueIsBounded` | agent/websockets/connection.go:118-147 | the queue of messages from the backend never holds more than ten |
| `ShimDownstream.FailuresAreFinal` | server/server.go:443-465 | a failed poll, and a side that stopped, stay so, and nothing more is read or written there |
| `ShimUpstream.RunKeepsInv` | agent/websockets/shim.go:480-505 | what the client sent is conserved in the reader, the batch, the request, the queue and the backend's messages, up to the first failure |
| `ShimUpstream.BackendGetsPrefixOfClient` | server/server.go:420-506 | in every run the backend has an in-order prefix of the fragments, each non-empty and no longer than the buffer; of binary messages, its bytes are a prefix of the client's |
| `ShimUpstream.BackendGetsPrefixOfRun` | server/server.go:420-506 | the same against the binary messages that the steps of the run name |
| `ShimUpstream.EveryByteCanArrive` | server/server.go:472-506 | whatever messages the client sends, all of their bytes can reach the backend |
| `ShimUpstream.FailuresAreFinal` | server/server.go:499-506 | a failed request, and a handler or reader that gave up, stay so |
| `Injection.InjectWebsocketMessage` | agent/websockets/connection.go:292-329 | the two loops, down the path and over the values, compute the specified injection, with its errors |
| `Injection.AddMissing` | agent/websockets/connection.go:315-320 | the loop adds exactly the missing keys, in any order of the values |
| `Injection.InjectSucceedsExactlyOnObjects` | agent/websockets/connection.go:305-313 | injection succeeds exactly if the path leads to an object |
| `Injection.InjectOverwritesNothing` | agent/websockets/connection.go:292-329 | every value at every path is still there and unchanged, and objects stay objects |
| `Injection.InjectAddsExactlyMissing` | agent/websockets/connection.go:315-320 | a path gains a value exactly if it is the injection path and one of the keys that were missing there |
| `Injection.InjectIsIdempotent` | agent/websockets/connection.go:292-329 | a second injection changes nothing |
| `Injection.OutgoingIsOriginalOrInjected` | agent/websockets/connection.go:234-241 | the original is sent if injection fails, and otherwise the injected tree; sending that through again changes nothing |
| `Bridge.StreamAppend` | utils/tcpbridge/connection/connection.go:59-79 | the streams of consecutive messages join |
| `Bridge.RefillKeepsPending` | utils/tcpbridge/connection/connection.go:59-72 | skipping messages that are empty or not text loses no byte, and finds one exactly if there is one |
| `Bridge.ReadIsNextBytes` | utils/tcpbridge/connection/connection.go:59-79 | a read hands out exactly the next bytes, at least one if there is room; it waits or fails exactly if there are none, and reports the end only of a websocket that has ended |
| `Bridge.WaitingIsHarmless` | utils/tcpbridge/connection/connection.go:59-72 | a read that waits for messages does what it would have done had it come after them |
| `Bridge.WebsocketNetConn.Read` | utils/tcpbridge/connection/connection.go:59-79 | the loops compute that read in place and leave the rest of the caller's buffer alone |
| `Bridge.WebsocketNetConn.Write` | utils/tcpbridge/connection/connection.go:82-87 | a successful write appends exactly its bytes to the stream, a failed one nothing |
| `Bridge.RunKeepsInv` | utils/tcpbridge/connection/connection.go:59-87 | at every step, bytes read and bytes pending make up the bytes written |
| `Bridge.BridgeIsByteStream` | utils/tcpbridge/connection/connection.go:59-87 | for every chunking of writes and every choice of read buffers, the bytes read are a prefix of the bytes written, reads make progress until all is read, and then wait until the websocket ends |
| `Bridge.ReadsArePrefixOfRun` | utils/tcpbridge/connection/connection.go:59-87 | the same against the bytes that the steps of the run write, and the end of the websocket in it |
| `Bridge.InboxIsRestOfRun` | utils/tcpbridge/connection/connection.go:59-72 | what has not been read is the rest of the messages that arrive in the run |
| `SeenRequests.ByRecencyProperties` | agent/agent.go:226-231 | recency order holds each seen ID exactly once |
| `SeenRequests.NewExactlyWhenForgotten` | agent/agent.go:226-231 | an ID is outside the window of n exactly if it was never seen or n other IDs were seen since |
| `SeenRequests.WindowStep` | agent/agent.go:226-231 | a lookup, and an addition if that missed, keep the cache at the n most recently seen distinct IDs |
| `SeenRequests.ProcessBatch` | agent/agent.go:226-231 | starts exactly the IDs of the batch that are outside the window when their turn comes |
| `SeenRequests.PollForNewRequests` | agent/agent.go:208-235 | starts, for every list call, exactly the IDs that are not among the 1000 most recently seen; the retry counter is the number of trailing failures |
| `SeenRequests.GroupingDoesNotMatter` | agent/agent.go:208-235 | how sightings are spread over list calls, and which calls fail, does not change what is started |
| `SeenRequests.JobsAreStarts` | agent/agent.go:226-231 | an ID has exactly as many jobs as there are sightings that find it outside the window |
| `SeenRequests.RestartsAreFarApart` | agent/agent.go:56-57 | two starts of one ID are separated by sightings of at least 1000 other IDs |
| `SeenRequests.FirstSightingStarts` | agent/agent.go:226-231 | an ID is always started at its first sighting |
| `Sessions.SessionResponseWriter.WriteHeader` | agent/sessions/sessions.go:84-117 | the first call takes out every backend cookie and leaves the session cookie, exactly if the request had no session; later calls change nothing |
| `Sessions.RestoreSession` | agent/sessions/sessions.go:134-148 | the request's cookies are its own without the session cookie, followed by the jar's |
| `Sessions.RunKeepsInv` | agent/sessions/sessions.go:151-235 | the invariant on jars, cache and exchanges holds in every reachable state, with lookups and additions as separate steps and any eviction |
| `Sessions.SessionsAreIsolated` | agent/sessions/sessions.go:151-235 | every restored cookie was set by a response of the same session; without a session none is restored; jars under the empty ID are empty |
| `Sessions.RestoredCookiesWereSetInRun` | agent/sessions/sessions.go:84-177 | a cookie that the run restores was set by a header write of the run in an exchange whose request named the same session, or none and was given it |
| `Sessions.JarIsRestored` | agent/sessions/sessions.go:218-235 | a request of a session whose jar is cached can be given all the cookies of that jar |
| `Sessions.CookiesComeBack` | agent/sessions/sessions.go:151-235 | the cookies that a response leaves in its session's cached jar come back in a later request of the session, over any steps that neither evict, re-add nor set cookies in it |
| `Sessions.NewSessionIsCached` | agent/sessions/sessions.go:211-235 | a response of a session without a cached jar can cache one with its cookies |
| `Sessions.EvictedSessionStartsAnew` | agent/sessions/sessions.go:211-235 | after an eviction the session's next request gets an empty jar, which is then cached |
| `Sessions.OpenedSessionsAreDistinct` | agent/sessions/sessions.go:93-105 | a session that a response opened is written by another one only if its request named it |

## Left out

Assumptions: `newID`, App Engine request IDs and new session IDs never repeat; the clock does not run
backwards; no request is delivered to the agent twice within one shim session.

- HTTP and JSON text, TLS, OAuth, Datastore, Memcache and cookie-jar matching: payloads are byte strings, JSON is a tree, stores are maps, and a jar is a set of cookies of which any part may match.
- Metrics, logging, banner, templates, injected scripts, flags, health checks, VM identity, backoff durations and signal handling: configuration, user interface and I/O.
- Liveness and deadlock: only safety is stated; a poll that gets a 408 ends the poll loop for good (server/server.go:459-463).
- Rendezvous: a body that a failed GET's handler closes counts as read by it to the end; the hop-by-hop filter of server/server.go:268-272 is not applied.
- AppProxy: `GetMulti` gets its parts in order; serving whole pages from the cache is not modelled beyond its keys.
- Age of stored responses: `newStoredResponse` does not set a start time, so the clean-up of responses is modelled as deletion at any time.
- The activity tracker and the listing of backends: they would only add easy members.
- BlobStore.Datastore.WriteBlobParts: performs its puts one after the other, because methods are sequential here; `BlobsDoNotDisturbEachOther` and `AppProxy` have them as single steps in any order.
- ReplayBuffer.PostResponseWithRetries: a POST has stopped reading the body when `client.Do` returns, because readers are sequential here.
- The shim's session table, session timeouts and concurrent close and send on one session (agent/websockets/shim.go:431-446): one session is modelled, and any failure ends its direction.
- Message boundaries from client to backend: the proxy cuts messages by buffer size, so only bytes are compared there.
- Injection: the assignment to the nested map is a function of the tree, so aliasing is not captured; numbers are kept as they are written, without the rounding of decoding.
- Exponential backoff and the waiting times of polls: time passes only in `Backends`.
