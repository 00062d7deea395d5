# AdGuard DNS CLI: client storage, configuration and migration, verified

AdGuard DNS CLI is a DNS proxy that sends a question to an upstream chosen by the
address of the client and the domain of the question. This project models the parts
that decide which upstream that is, and proves what they promise:

- the client storage as a concurrent protocol: any number of lookups, the garbage
  collector and the clock, interleaved at every shared access;
- the lookup index: configured slots sorted once, then scanned for the first match;
- the configuration compiler: validation with one conflict set, two builders, the
  static clients, the sorted slots;
- the strings that identify devices, with their length limits;
- the migration of configuration files between schema versions, with its file steps.

`dafny verify dfyconfig.toml` checks everything.

## How it is organised

| File | Content |
|---|---|
| `Wrappers`, `Orders`, `Sorting` | Option and Result; lexicographic orders; the insertion sort and uniqueness of sorted sequences |
| `Net`, `DomainNames`, `Lookup` | addresses and prefixes; `compareDomains` and subdomains; the lookup index |
| `SingleFlight` | the queue of `internal/client/queue.go` |
| `Storage`, `Expiry` | the critical sections of the storage; whole lookups and collections one after another |
| `Protocol`, `ProtocolInvariant`, `ProtocolTheorems` | the transition system, its invariant, what it means for runs |
| `SoloGets`, `DefaultSourceRuns` | uninterrupted lookups are the whole ones of `Storage`; runs with `DefaultHumanIDSource` |
| `HumanIDs`, `IdSources`, `RdnsSource` | identity strings; `DefaultHumanIDSource`; `RDNSIDSource` |
| `RdnsCalls`, `CompositeRuns` | overlapping calls of `RDNSIDSource` with `DefaultHumanIDSource` behind it; executions answered by the two |
| `Config`, `ConfigBuild`, `EndToEnd`, `WholeGet` | validation; the builders; the meaning of the compiled configuration; `Get` with the index in front of the clients |
| `Migration`, `MigrationTheorems`, `MigrationFiles` | the document migrations; what they mean; the file steps |

### The protocol

A thread of `Protocol` is one `Get` that has selected an autodevice slot. Its positions
are the sections between two shared accesses of `internal/client/defaultstorage.go` and
`internal/client/queue.go`:

| Position | Section |
|---|---|
| `SearchPush`, `SearchWait` | `searchQueue.push`: load-or-store, then the wait for the channel (queue.go:36-53) |
| `ReadClock`, `Find` | the clock reading and the lookup under the mutex of the slot (defaultstorage.go:294-317, 344-355) |
| `IdentPush`, `IdentWait` | `identifyQueue.push` (defaultstorage.go:416-421) |
| `CallSource`, `CheckIdentity` | the human ID source, then the duplicate check under the mutex of the storage (defaultstorage.go:426-449) |
| `IdentDone`, `IdentDelete` | the deferred `identifyQueue.done`: result and channel, then the deletion (queue.go:58-70) |
| `Build`, `StoreClient` | the upstream constructor, then the storing of the client (defaultstorage.go:378-396) |
| `SearchDone`, `SearchDelete` | the deferred `searchQueue.done` |

A section under a mutex, an operation of `sync.Map` and the closing of a channel are one
step each. The environment decides scheduling, cancellation of waits, the passing of
time, when the collector starts and with which clock reading, the answers of the source
and whether an upstream can be built.

### Assumptions

- The human ID source never takes validity back for one address and ID (`NotBackdated`).
  `DefaultHumanIDSource` and `RDNSIDSource` are each proved to keep this. The two together,
  which the program uses when it has private upstreams (internal/cmd/clientstorage.go:80-99),
  keep it as long as no PTR record names an address by its own default ID; then every run
  of the program is an execution of the protocol (`CompositeRunsAreExecutions`).
  `BackdatedSourceBreaksUniqueness` shows that without the assumption two addresses can hold
  one live ID.
- A source returns either an ID or an error (internal/client/humanidsource.go:25-31), and
  the leader of a queue returns normally.
- Packages not in the repository: `netip.Prefix.Compare` orders by family, masked address,
  length and address; `Contains` is equality of the leading bits within one family, never
  for an address with a zone; `netutil.IsSubdomain` is "longer, has the suffix, preceded by
  a dot"; a valid domain name has no empty label. Sorting is an insertion sort, and
  `SortedIsUnique` shows that any other correct sort gives the same slices.
- Go maps are iterated in an arbitrary order, and so are the group names, which the source
  sorts; the results hold for every order.
- The cache of `RDNSIDSource` returns an answer until its expiry and evicts only expired ones.
- Encoding a YAML document and decoding it again only loses the Go types of the values.

### Where the code does less than one may expect

- With overlapping subnets the first match is not the most specific one, because
  `netip.Prefix.Compare` puts the wider subnet first. The storage asks for
  non-overlapping prefixes (internal/client/defaultstorage.go:33), but validation does not
  check it (internal/cmd/upstream.go:64). `FirstIsBestIffUnshadowed` states exactly when
  the lookup is right at an address, `OverlapBreaksLookup` gives a counterexample.
- Not every host name converts to a human ID: the cut at 50 characters can end on a hyphen,
  and a name can have three hyphens in a row. `HostnameConvertsIff` has the condition.
- `DefaultHumanIDSource` makes an invalid ID for an address with a zone
  (`DefaultIDIsValidIff`).
- With `RDNSIDSource` in front of `DefaultHumanIDSource` an answer can take back the validity
  of an earlier one. `GoesBackIffNamedByDefaultID` has the exact condition on the replies: a
  default answer is taken back if and only if afterwards a reply's first acceptable record
  has a name that converts to the default ID of the same address and a TTL that ends before
  the default answer would have. It can happen for every address without a zone
  (`OwnDefaultNameGoesBack`).
- A garbage collection can take away a client, or a conflict, from a lookup whose clock
  reading is older (`GetSeesCollectionIff` has the exact condition).
- `compareDomains` is 0 on two different names exactly if they differ in one leading dot with
  a label after it (`EqualUpToLeadingDot`); validation rules such names out.
- `migrate` panics when the target version is below the current one or above the latest
  (`SuccessMigrates` has the condition); `migrateTo4` leaves the acceptable groups edited in
  memory when it fails on another one.

## Model

| member | source | states |
|---|---|---|
| DomainNames.CompareDomainsLoop | internal/client/defaultstorage.go:582-610 | the loop terminates and returns the lexicographic comparison of the reversed label lists, with the end of a name greater than any label |
| DomainNames.JoinOfLabels | internal/client/defaultstorage.go:582-610 | every name without a leading dot before a label can be put together again from the labels the loop strips |
| DomainNames.CompareDomainsIsTotal | internal/client/defaultstorage.go:582-610 | the comparison is a total preorder on all names, and 0 only on equal non-FQDNs |
| DomainNames.EqualUpToLeadingDot | internal/client/defaultstorage.go:582-610 | two names compare equal if and only if they are equal up to one leading dot with a label after it |
| DomainNames.SubdomainSortsFirst | internal/client/defaultstorage.go:582-616 | every strict subdomain, and every name against the empty one, sorts before its parent |
| DomainNames.MatchesAreNested | internal/client/defaultstorage.go:614-616 | of two configured domains that match one question the longer matches the shorter, and equally long ones are equal |
| DomainNames.MatchesTransitively | internal/client/defaultstorage.go:614-616 | matching a subdomain of a configured domain is matching that domain |
| DomainNames.MatchesIffLabels | internal/client/defaultstorage.go:614-616 | a question matches a configured domain if and only if the labels of the domain, from right to left, are the first ones of the question |
| DomainNames.SubdomainMatches | internal/client/defaultstorage.go:614-616 | every name with a dot and the domain at its end matches the domain |
| DomainNames.CoveringIsUnique | internal/client/defaultstorage.go:614-616 | the domains that cover one question are determined by their length |
| Orders.StringsCompareBytes | internal/client/defaultstorage.go:602-606 | one label is below another if and only if at the first difference it has the lower byte or ends |
| Net.ComparePrefixesIsTotal | internal/client/defaultstorage.go:549-577 | prefix comparison is a total order, 0 only on equal prefixes |
| Net.WiderSortsFirst | internal/client/defaultstorage.go:549-577 | of two prefixes around one address the wider one sorts first |
| Net.SameLengthSamePrefix | internal/client/defaultstorage.go:622-632 | masked prefixes of one length around one address are equal |
| Net.ContainsIffInBlock | internal/client/defaultstorage.go:622-632 | a masked prefix is an aligned block of address numbers and contains exactly the zone-free addresses of its family in that block; masked means that its number is a multiple of the block size |
| Net.ComparePrefixesIs | internal/client/defaultstorage.go:571-576 | masked prefixes are ordered by family, IPv4 first, then by the number of the address, then the wider one first |
| Net.SingleIPIffOneAddress | internal/client/defaultstorage.go:563-569 | a prefix is a single address if and only if it contains no two addresses |
| Sorting.InsertionSort | internal/client/defaultstorage.go:132 | the slice is sorted in place and holds the same elements |
| Sorting.SortedIsUnique | internal/client/defaultstorage.go:132 | with no two elements comparing equal there is only one sorted arrangement |
| Lookup.CompareIsTotal | internal/client/defaultstorage.go:549-577 | both slot comparisons are total orders that are 0 only on equal (prefix, domain) keys |
| Lookup.FindFirst | internal/client/defaultstorage.go:245-255 | returns the payload of the first matching slot, or nothing |
| Lookup.NewSortedSlots | internal/client/defaultstorage.go:115-151 | the slice holds each entry of the nested configuration map exactly once, sorted |
| Lookup.OrderIndependence | internal/client/defaultstorage.go:119-151 | two sorted listings of one configuration map are equal, so every lookup is independent of the order in which the map was iterated |
| Lookup.FindSlot | internal/client/defaultstorage.go:278-284 | returns the index of the first matching slot, or nothing |
| Lookup.BestIsUnique | internal/client/defaultstorage.go:549-577 | the declarative best match, narrowest prefix and then longest domain, is unique |
| Lookup.LookupFindsBest | internal/client/defaultstorage.go:245-255 | with non-overlapping prefixes, single addresses of static clients aside, the first match is the best match, and there is none only if nothing matches |
| Lookup.SingleAddressWins | internal/client/defaultstorage.go:563-569 | a static client for the address itself is found before every subnet, overlapping or not |
| Lookup.FirstIsBestIffUnshadowed | internal/client/defaultstorage.go:245-289 | at an address, first match and best match agree for every question if and only if no slot shadows a narrower one there |
| Lookup.OverlapBreaksLookup | internal/client/defaultstorage.go:549-577 | two overlapping subnets with one domain: the wider one wins |
| Lookup.SearchKeySound | internal/client/defaultstorage.go:236-288 | for one address the selected domain alone determines the selected slot, overlapping prefixes or not |
| SingleFlight.SharedQueue.Push | internal/client/queue.go:36-53 | load-or-store: loaded exactly if the key was there, and a stored entry is open |
| SingleFlight.SharedQueue.Done | internal/client/queue.go:58-70 | publishes the result and removes the key; refuses, changing nothing, exactly where the source panics |
| Storage.DefaultStorage.FindValid | internal/client/defaultstorage.go:294-317 | returns a stored client still valid at now; removes an expired one and hands it to the finalizer; nothing else changes |
| Storage.DefaultStorage.CheckIdentity | internal/client/defaultstorage.go:431-447 | duplicate exactly if another address holds the ID beyond now; else the ID is claimed |
| Storage.DefaultStorage.GetClient | internal/client/defaultstorage.go:323-397 | state and answer of an uninterrupted lookup in all cases, failures included |
| Storage.DefaultStorage.CleanExpiredClients | internal/client/defaultstorage.go:494-511 | the loop keeps exactly the clients that expire after now and finalizes exactly the others, once each |
| Storage.DefaultStorage.CleanExpired | internal/client/defaultstorage.go:477-490 | all slots are cleaned and the identities that expired before now dropped |
| Expiry.RunsAgree | internal/client/defaultstorage.go:477-511 | a storage that collects garbage and one that never does, agreeing on live entries, answer every later lookup alike |
| Expiry.CollectionIsInvisible | internal/client/defaultstorage.go:477-511 | removing every collection from a run changes no answer, for any clock readings as long as no lookup has an older one than a collection before it |
| Expiry.GetSeesCollectionIff | internal/client/defaultstorage.go:477-511 | a lookup is the same with and without a collection before it, for all answers of source and constructor, if and only if the collection takes neither its client nor, if it has none, a conflict |
| Expiry.LookupSeesCollectionIff | internal/client/defaultstorage.go:494-511 | the lookup sees a collection exactly if the client expires after the lookup's clock reading and not after the collection's |
| Expiry.CheckSeesCollectionIff | internal/client/defaultstorage.go:477-490 | the duplicate check sees a collection exactly if the identity of another address expires strictly between the two readings |
| Expiry.StaleGetSeesCollection | internal/client/defaultstorage.go:294-317 | a run in which a lookup misses a stored client with its identity, its reading being older than a collection |
| Expiry.BackdatedSourceBreaksUniqueness | internal/client/defaultstorage.go:434-447 | when a source says u and then v for the validity of one address and ID, a lookup of another address for that ID makes two live holders if and only if its clock reading is at least v and before u |
| ProtocolInvariant.ActionKeepsInv | internal/client/defaultstorage.go:294-511 | every action of every thread, the collector and the clock keeps the invariant of queues, identities, stored clients and entries |
| ProtocolInvariant.ClaimKeepsBacked | internal/client/defaultstorage.go:434-447 | claiming an ID leaves every live identity recorded for its address at least as long |
| ProtocolInvariant.SharedResultIsOwn | internal/client/defaultstorage.go:323-341 | a result shared through the search queue was made for the waiter's own address and slot |
| ProtocolInvariant.StoreMoves | internal/client/defaultstorage.go:390-396 | storing moves a client from its creator to a map that had no entry |
| ProtocolTheorems.ExecutionHasInv | internal/client/defaultstorage.go:174-511 | the invariant holds in every state of every execution |
| ProtocolTheorems.LiveIdentitiesAreUnique | internal/client/defaultstorage.go:410-450 | in every execution two unexpired clients, stored or about to be, with one human ID have one address |
| ProtocolTheorems.LiveStoredIdentitiesAreUnique | internal/client/defaultstorage.go:410-450 | the same for any two entries of the clients maps |
| ProtocolTheorems.ClientsAreConserved | internal/client/defaultstorage.go:494-528 | each client created is in flight, stored, or finalized once, never two of these; every map entry is such a client in its own slot under its own address; nothing else is finalized |
| ProtocolTheorems.StoringOverwritesNothing | internal/client/defaultstorage.go:390-396 | when a client is stored there is no entry for its address |
| ProtocolTheorems.LiveClientStays | internal/client/defaultstorage.go:494-511 | a stored client that has not expired is never deleted or replaced |
| ProtocolTheorems.LookupReturnsLiveClient | internal/client/defaultstorage.go:294-317 | every lookup section before it expires finds that same client |
| ProtocolTheorems.ResultIsCarried | internal/client/defaultstorage.go:323-363 | a lookup on its way out keeps its result to the end |
| ProtocolTheorems.LookupAnswersLiveClient | internal/client/defaultstorage.go:294-363 | the answer of every lookup that looks a client up before it expires is that same client |
| ProtocolTheorems.WaiterCanBeCancelled | internal/client/queue.go:36-53 | a waiter of either queue can be cancelled in any state of an execution, and then ends without a client |
| ProtocolTheorems.IdentFailureNamesReason | internal/client/defaultstorage.go:410-450 | an identification fails with the source's error exactly after the source has failed, and as a duplicate only after a conflict |
| ProtocolTheorems.SearchFailureNamesReason | internal/client/defaultstorage.go:365-397 | a lookup fails with the cancellation, with the constructor's error after the constructor has failed, or with the error of the identification, its own or the published one |
| ProtocolTheorems.OneLeaderPerKey | internal/client/queue.go:36-70 | in every execution at most one lookup per key is between the push and the deletion in the search queue, and at most one per address in the identify queue |
| ProtocolTheorems.NoGetPanics | internal/client/queue.go:58-70 | no execution reaches the panics of done or a nil ID |
| ProtocolTheorems.WaitersNeverLead | internal/client/defaultstorage.go:334-341 | a waiter never sees the zero value with a nil error: a waiter of the search queue is finished, one of the identify queue goes on without calling the source |
| ProtocolTheorems.IdentResultWasPublished | internal/client/queue.go:58-70 | a closed entry of the identify queue was closed once, by its leader's done, with the leader's result for the address of the entry |
| ProtocolTheorems.IdentWaiterGetsPublished | internal/client/queue.go:36-53 | an uncancelled waiter of the identify queue goes on with exactly the ID or error that the leader of its entry published for the waiter's address |
| ProtocolTheorems.WaiterReturnsLeadersAnswer | internal/client/queue.go:36-53 | a waiter that is not cancelled returns exactly what the leader of its entry returns |
| ProtocolTheorems.AnswersAreOwn | internal/client/defaultstorage.go:323-363 | every answer is a client of the asking address and the selected configuration |
| ProtocolTheorems.SomeGetCanStep | internal/client/defaultstorage.go:323-450 | no deadlock: while a lookup is unfinished, some lookup can go on without a cancellation |
| ProtocolTheorems.SchedulesAreBounded | internal/client/defaultstorage.go:323-450 | no livelock: in every run, with clock ticks, collections and new lookups in between, the steps of lookups are bounded by their initial work and 14 for each new one |
| ProtocolTheorems.ExecutionsAreBounded | internal/client/defaultstorage.go:323-450 | in an execution the number of steps of lookups, cancellations and answers included, is at most 14 times the number of lookups |
| ProtocolTheorems.EveryGetCanFinish | internal/client/defaultstorage.go:323-450 | from every state that keeps the invariant all lookups can be completed without cancelling any |
| SoloGets.SoloGetIsAtomic | internal/client/defaultstorage.go:323-397 | at any later time every question that selects a slot can be asked, and the lookup, uninterrupted and with no other at work on its key or address, ends with the answer and the storage of the whole lookup at that time |
| SoloGets.SoloSweepIsAtomic | internal/client/defaultstorage.go:477-511 | at any later time an idle collector can start with any clock reading up to then, and its uninterrupted pass is the whole collection |
| DefaultSourceRuns.DefaultSourceNeverConflicts | internal/client/defaultstorage.go:434-442 | with DefaultHumanIDSource alone the duplicate check never fires, in any execution |
| DefaultSourceRuns.DefaultSourceMeetsContract | internal/client/humanidsource.go:74-94 | its answers, the default ID valid for the validity interval from now, never go back in validity, so the source contract never blocks them |
| HumanIDs.FqdnToHumanIDProjects | internal/client/humanid.go:74-90 | the conversion is an idempotent projection onto valid IDs: dot-free, at most 50 characters, mapping to themselves |
| HumanIDs.FqdnToHumanIDIs | internal/client/humanid.go:74-90 | any name converts to exactly what is left of it without one final dot, cut at 50 characters or before a dot there, with hyphens for dots, if that is a human ID |
| HumanIDs.HumanIDsAre | internal/client/humanid.go:53-71 | a human ID is 1 to 50 letters, digits and hyphens, without a hyphen at either end and without three in a row |
| HumanIDs.ProfileIDsAre | internal/client/humanid.go:95-115 | a profile ID is eight letters, digits and hyphens, without a hyphen at either end |
| HumanIDs.HostnameConvertsIff | internal/client/humanid.go:74-90 | a host name converts if and only if its first 50 characters, or 49 before a dot, do not end on a hyphen and have no three hyphens in a row; the ID is these characters with hyphens for dots |
| HumanIDs.HyphenFreeHostnameConverts | internal/client/humanid.go:74-90 | every hyphen-free host name of any length converts, with or without the final dot, to an ID of the length of the cut |
| HumanIDs.CutCanEndOnHyphen | internal/client/humanid.go:74-90 | a family of host names that does not convert |
| HumanIDs.ExtendedIDIsLabel | internal/client/autodevice.go:56-76 | of valid parts the extended ID is a host name label, full (63 octets) exactly for the longest human IDs |
| HumanIDs.ExtendedIDIsUnique | internal/client/autodevice.go:56-76 | device type, profile and human ID can be read back from the extended ID |
| HumanIDs.UpstreamURLIs | internal/client/autodevice.go:56-76 | for an https template, in any letter case, the address of a device has one more path element, for tls and quic one more first label of the host: device type, profile and human ID at 0, 4 and 13 with hyphens between; the rest is the template's, and other schemes give none |
| HumanIDs.UpstreamURLIsUnique | internal/client/autodevice.go:56-76 | from one template two devices share an upstream address only if all three parts agree |
| HumanIDs.LowerIsFold | internal/dnssvc/dnssvc.go:189 | lowercasing makes two strings equal if and only if they differ at most in letter case, and leaves no capitals |
| IdSources.DefaultIDIsValidIff | internal/client/humanidsource.go:74-94 | the made ID passes newHumanID if and only if the address has no zone |
| IdSources.DefaultIDIsInjective | internal/client/humanidsource.go:74-94 | different unmapped zone-free addresses have different IDs |
| IdSources.IPv4DefaultID | internal/client/humanidsource.go:74-94 | the ID of an IPv4 address is "dev-" and its four octets in decimal, first to last, joined by hyphens |
| IdSources.IPv6DefaultID | internal/client/humanidsource.go:74-94 | the ID of any other zone-free IPv6 address is "dev-" and its 32 hexadecimal digits, first to last, in eight groups joined by hyphens |
| IdSources.MappedDefaultID | internal/client/humanidsource.go:74-94 | an IPv4-mapped IPv6 address has the ID of the IPv4 address |
| IdSources.ZonedDefaultID | internal/client/humanidsource.go:74-94 | an address with a zone has the ID of the address without it, a percent sign and the zone, with hyphens for colons |
| RdnsSource.RDNSIDSource.CheckDuplicates | internal/client/rdnsidsource.go:205-216 | refuses an ID claimed beyond now, else claims it until the record expires |
| RdnsSource.RDNSIDSource.HumanIDFromPTR | internal/client/rdnsidsource.go:178-200 | accepts exactly the acceptable records, and claims nothing on failure |
| RdnsSource.RDNSIDSource.ClaimFirst | internal/client/rdnsidsource.go:139-163 | the loop claims the first acceptable answer only, or leaves the claims as they were |
| RdnsSource.RDNSIDSource.HumanIDFromResponse | internal/client/rdnsidsource.go:131-174 | the answer, the claims and the cached value with its lifetime, on success and failure |
| RdnsSource.RDNSIDSource.Identify | internal/client/rdnsidsource.go:104-126 | answer and state of a call: from the cache, after a failed or bad reply, and from the records |
| RdnsSource.RDNSIDSource.OnEvicted | internal/client/rdnsidsource.go:82-94 | the removal of a cached answer releases its ID by name |
| RdnsSource.ClaimedIsLater | internal/client/rdnsidsource.go:131-216 | a claim is a valid ID, ends later than every recorded earlier claim of it, and is cached as long as it lasts |
| RdnsSource.AnswerIsCachedFor | internal/client/rdnsidsource.go:104-174 | an answer is cached for as many seconds as the record lives, the absence of an ID for five minutes, and a failed exchange not at all |
| RdnsCalls.WholeCallIsIdentify | internal/client/rdnsidsource.go:104-126 | uninterrupted, the separate events of a call have the answer and the state of Identify |
| RdnsCalls.ExpiredIsEvicted | internal/client/rdnsidsource.go:82-94 | an expired answer can be evicted at any later time, with the effect of the callback and none on the calls under way |
| RdnsCalls.RdnsNeverGoesBack | internal/client/rdnsidsource.go:104-174 | in every run, with overlapping calls for other addresses and evictions, a later answer for an address is valid at least as long as an earlier one, and where there is none the earlier one has expired |
| RdnsCalls.GoesBackIffNamedByDefaultID | internal/client/humanidsource.go:107-121 | an answer of the two sources is taken back later in the run if and only if it is a default one and afterwards the first acceptable record of a reply for the address converts to its default ID and ends before the default answer would |
| RdnsCalls.CompositeNeverGoesBack | internal/client/humanidsource.go:107-121 | without a record that names an address by its own default ID the two sources never take validity back |
| RdnsCalls.OwnDefaultNameGoesBack | internal/cmd/clientstorage.go:80-99 | for every address without a zone there is a run in which a default answer is taken back |
| CompositeRuns.CompositeIsNotBackdated | internal/cmd/clientstorage.go:80-99 | in an execution answered by the two sources, without such a record, no answer is backdated |
| CompositeRuns.CompositeRunsAreExecutions | internal/cmd/clientstorage.go:80-99 | then every run of the storage with these sources, nothing assumed of their answers, is an execution of the protocol |
| CompositeRuns.CompositeIdentitiesAreUnique | internal/client/defaultstorage.go:410-450 | so in it two unexpired clients with one human ID have one address |
| Config.Validation.AddMatch | internal/cmd/upstream.go:65-79 | refuses exactly a key already in the set, without changing it |
| Config.Validation.ValidateMatches | internal/cmd/upstream.go:214-221 | the loop, which goes on after errors, records every valid match and accepts only valid ones |
| Config.Validation.ValidateAsCustom | internal/cmd/upstream.go:200-224 | autodevice settings, address and matches of a custom group: accepts only valid groups whose matches are then recorded, refuses only invalid groups or repeated matches |
| Config.ValidateAsPredefined | internal/cmd/upstream.go:161-196 | accepts exactly the predefined groups without matches, with valid autodevice settings and address, and without autodevice for the private one |
| Config.Validation.Validate | internal/cmd/upstream.go:103-141 | accepts if and only if the configuration is valid; in particular no two matches of the custom groups have one prefix and domains that differ at most in letter case |
| ConfigBuild.NextKeyIsFree | internal/cmd/upstream.go:414-486 | after validation the next key a builder writes is never taken |
| ConfigBuild.AddCustomGroup | internal/cmd/upstream.go:414-486 | fills the map of its kind with exactly the matches of the group; only an address without an upstream fails |
| ConfigBuild.DefaultKeyIsFree | internal/cmd/upstream.go:358-393 | no custom group takes the slot of the default group |
| ConfigBuild.NewUpstreams | internal/cmd/upstream.go:308-354 | never a duplicate; fails group by group exactly on the addresses that cannot be dialled, and otherwise the maps hold exactly what the configuration asks for; each entry has the address and, for autodevice groups, the device type and profile of its group |
| ConfigBuild.NewStaticClients | internal/cmd/clientstorage.go:103-134 | the nested copy holds a client for exactly each configured entry, with the given cache |
| EndToEnd.Compile | internal/cmd/clientstorage.go:45-75 | start-up succeeds if and only if the configuration is valid and its addresses can be dialled, and the index then lists exactly what it asks for, each slot with the values of its group and static clients with the configured cache |
| EndToEnd.FirstIsBestMatch | internal/client/defaultstorage.go:245-289 | the first slot is the best match of the raw match lists, or the default group when nothing covers the question |
| EndToEnd.FoundIsSelected | internal/dnssvc/dnssvc.go:176-195 | for a validated configuration without overlaps the group found is the one that a direct rule on prefixes and labels selects, with that group's own address, device type and profile, field by field |
| WholeGet.Get | internal/client/defaultstorage.go:174-289 | static slots first, then, for identifiable clients, the lookup or creation of the device in the first matching autodevice slot: the answer and the storage after it |
| WholeGet.LetterCaseIsIgnored | internal/dnssvc/dnssvc.go:186-192 | questions that differ at most in letter case get one answer and leave one storage |
| WholeGet.AnswerIsFound | internal/client/defaultstorage.go:174-363 | an answer belongs to the slot found in the index and to the asking address; there is none exactly if no slot is found or no device is stored or can be made |
| WholeGet.AnswerIsSelected | internal/dnssvc/dnssvc.go:176-195 | the client that answers is of the group the rule selects, and there is none exactly if the rule selects none or the device cannot be made |
| WholeGet.AnswerIsAlwaysSelected | internal/dnssvc/dnssvc.go:176-195 | the same after any sequence of lookups and collections from the start of the storage, nothing assumed of its state |
| WholeGet.ConcurrentAnswerIsSelected | internal/client/defaultstorage.go:260-363 | in every interleaving a device that answers a question no static group covers is of the asking address and of the group the rule selects |
| WholeGet.HistoryIsPlaced | internal/client/defaultstorage.go:174-511 | after any sequence of lookups and collections every client is in its own slot under its own address |
| WholeGet.GetKeepsPlaced | internal/client/defaultstorage.go:174-397 | clients stay in their own slot under their own address |
| EndToEnd.SelectionIsUnique | internal/cmd/upstream.go:308-486 | the rule selects one group only |
| EndToEnd.OverlapAllowedIff | internal/client/defaultstorage.go:31-37 | a narrower prefix is allowed beside a wider one if and only if it is a single address of a static group or does not start in the block of the wider one |
| EndToEnd.AskedKeysAreDistinct | internal/cmd/upstream.go:358-486 | static and autodevice maps share no key, and no match takes the key of the default group |
| Migration.FieldChainObj | internal/configmigrate/yaml.go:41-65 | finds the object at a path exactly if it is there; an error names the first key without an object and tells absent from wrongly typed |
| Migration.GetVersionIff | internal/configmigrate/migrator.go:99-112 | a document has a version if and only if its schema_version is a number from 1 to 4; the error tells absent, wrongly typed and out of range |
| Migration.Document.MigrateTo2 | internal/configmigrate/v2.go:36-61 | succeeds exactly if the server object lacks the new key; an error changes nothing |
| Migration.Document.MigrateTo3 | internal/configmigrate/v3.go:32-55 | succeeds exactly if the server object lacks the new key; an error changes nothing |
| Migration.Document.MigrateTo4 | internal/configmigrate/v4.go:42-88 | succeeds exactly if every group is an object without the new key; an error lists exactly the groups at fault, and then the acceptable groups are edited and the version is not |
| Migration.Document.Migrate | internal/configmigrate/migrator.go:119-143 | the loop performs the migrations from current to target; a refusal names its version and cause, and leaves the document of the migrations before it, with the edits of a refused migrateTo4 |
| MigrationTheorems.StepMeaning | internal/configmigrate/v4.go:42-88 | a migration sets the version, adds the documented values at the documented keys, and leaves the value at every other path |
| MigrationTheorems.StepsMeaning | internal/configmigrate/migrator.go:119-143 | the same for every upgrade from any version to any later one |
| MigrationTheorems.UpgradeIsDetermined | internal/configmigrate/migrator.go:119-143 | the migrated document is the only one with that meaning |
| MigrationTheorems.MigratesIffReady | internal/configmigrate/migrator.go:119-143 | an upgrade succeeds if and only if the original document has the objects to extend and none of the new keys |
| Migration.StepsCompose | internal/configmigrate/migrator.go:119-143 | an upgrade is the composition of its halves at any version |
| MigrationTheorems.UpgradePathsAgree | internal/configmigrate/migrator.go:58-96 | upgrading in two releases, with the file written and read in between, gives the direct upgrade and fails when it fails |
| MigrationTheorems.MigratedVersion | internal/configmigrate/migrator.go:99-112 | the next start reads the target version |
| MigrationTheorems.DocumentedValues | CHANGELOG.md:70-236 | the upgraded file has the target version, bind_retry with true, 1s and 4, pending_requests with true, and autodevice with false in every group, as far as the upgrade passes their versions |
| MigrationTheorems.RollbackIsLeftInverse | CHANGELOG.md:100-236 | the documented rollback, over any number of versions, gives back the original document |
| MigrationFiles.Migrator.BackupConfig | internal/configmigrate/migrator.go:156-186 | the original goes to a directory that must not exist before |
| MigrationFiles.Migrator.WriteMigrated | internal/configmigrate/migrator.go:190-229 | encoding, backup and replacement in this order, stopping at the first failure |
| MigrationFiles.Migrator.Run | internal/configmigrate/migrator.go:58-96 | the disk and the outcome of a run under every combination of faults |
| MigrationFiles.OriginalSurvives | internal/configmigrate/migrator.go:156-229 | whatever fails and wherever the run stops, the original text is in the configuration file or in the new backup, and no other file has changed |
| MigrationFiles.SuccessMigrates | internal/configmigrate/migrator.go:58-96 | a successful run leaves the migrated document at the target version with the original beside it; the panic has an exact condition |
| MigrationFiles.FaultFreeRun | internal/configmigrate/migrator.go:58-96 | the outcome and the disk of a run without faults for every file: absent, not decodable, version absent, wrongly typed or out of range, at the target, newer, older; the document is migrated, with the original in a new backup directory, exactly if it can be |
| MigrationFiles.RerunIsNoOp | internal/configmigrate/migrator.go:78-85 | a second run after a successful one changes nothing |
| MigrationFiles.RetryRecovers | internal/configmigrate/migrator.go:58-96 | after a failure that kept the configuration a later run ends as if the failed one had not happened |
| MigrationFiles.StagedRunsAgree | internal/configmigrate/migrator.go:58-96 | runs through an intermediate release end with the document of the direct upgrade |
| MigrationFiles.RollbackRestoresFile | CHANGELOG.md:100-236 | rolling back the migrated file gives the document of the original file |

## Left out

- Lookup.LookupFindsBest: needs non-overlapping prefixes, as the storage does; the exact condition at an address is in Lookup.FirstIsBestIffUnshadowed.
- EndToEnd.FoundIsSelected: likewise for prefixes that do not overlap within one kind of group; the question and the address are taken after the trimming of dots and the unmapping that `ServeDNS` does.
- ProtocolTheorems.LiveIdentitiesAreUnique: for sources that never take validity back; Expiry.BackdatedSourceBreaksUniqueness shows that it fails otherwise, and RdnsCalls.GoesBackIffNamedByDefaultID when the program's own source does.
- Expiry.CollectionIsInvisible: for lookups whose clock reading is not older than a collection already done; Expiry.GetSeesCollectionIff has the exact condition for the others.
- HumanIDs.HyphenFreeHostnameConverts: hyphen-free names only; HumanIDs.HostnameConvertsIff covers all host names.
- MigrationTheorems.RollbackIsLeftInverse: for documents as decoded from a file, where the version is a plain number.
- Running of finalizers, and Shutdown racing with a collection under way: conservation is stated for a storage that has not been shut down.
- A panic inside a queue leader: the deferred done would publish the zero value with a nil error.
- Claims of the records of one reply: the loop over them is one step, where another call can claim an ID between two records; validity does not depend on it.
- Uniqueness within RDNSIDSource alone: its eviction callback deletes an ID by name, and the guarantee rests on the storage.
- ConsequentHumanIDSource of other sources than these two, and EmptyHumanIDSource: a scan for the first success, and a source that always fails; in the protocol both are answers of the source.
- The queues of entries keep every entry ever stored, where Go frees unused ones; entries are named by their indices.
- The nested maps of a configuration document are values of one field: objects shared inside a document, which the decoder never makes, are not captured.
- Joining of paths in device URLs, URL and YAML texts, comments and key order of a document, texts of errors: not visible here or not kept.
- Static clients keep their upstream and cache settings only; upstreams, connections, caches and their closing are not part of this model.
- Classes of addresses: whether an address can be identified is a parameter; client prefixes are taken as parsed by the decoder.
- Timeouts, bootstrap, fallback and the other sections of the configuration: their validation is a list of independent checks.
- Exchange of DNS messages, the general and private upstreams' use, service control, logging and command-line options.
