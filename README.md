# Distributed cache node, modelled in Dafny

This models the core of a small peer-replicated, in-memory key-value cache node written in Java:

- **The cache node** (`DistributedCaches`, `distributed_cache.dfy`). Class `DistributedCache` has the local
  map `localCache` as a field, plus the fixed peer list, the port, and `sent`. `sent` is the sequence of
  `PeerNotification(peer, update)` records the node has handed to the network, oldest first.
  - `Put` overwrites the key without any check, then notifies every peer in list order.
  - `Get` is a plain lookup.
  - The two HTTP endpoints are modelled without their I/O. `HandleUpdateRequest` takes the decoded
    request body and applies it as a `Put`. `HandleGetRequest` extracts the key from the query and
    chooses 200, 404 or 405, or aborts the request.
- **The vector clock** (`VectorClocks`, `vector_clock.dfy`). Class `VectorClock` has the `timestamps`
  map as a field. `Increment` bumps one counter. `IsNewerThan` is the source's loop over this clock's
  entries, specified by the predicate `IsNewer`.
- **The cache records** (`CacheModel`, `cache_model.dfy`). `CacheEntry` has the TTL test `IsExpired`.
  That test takes the current time as a parameter instead of reading the wall clock. `CacheUpdate` is the
  replicated record.
- **Node start-up** (`NodeStartup`, `node_startup.dfy`). The `PEER_NODES` setting is split on commas the
  way Java's `String.split(",")` does it (`Split`). Then the empty fields are dropped (`PeerNodes`), and the
  node is built over the resulting peer list (`Launch`).

Two verified client methods show how the contracts combine. `DistributedCaches.LocalScenario` is the
sequence of calls in the cache's unit tests. `DistributedCaches.EchoScenario` is two nodes that list each
other. A `Put` on A reaches B through `/update`. B's `Put` sends the same key and value back to A, and A's
`Put` sends them to B again. The code has no rule that stops this exchange.

Where the design document and the code disagree, the model follows the code. The store keeps raw strings,
not `CacheEntry` values. No write is checked against a vector clock. There is no leader flag and no expiry
sweep. A received update is fanned out again, because `/update` calls `put`. Nothing in the core calls
`VectorClock` or `CacheEntry.isExpired`. The design document calls clock dominance a strict partial order,
but the relation the code computes is not one (see Findings).

Some source facts are stated in prose here rather than as contracts:

- `notifyOtherNodes` calls a two-argument `CacheUpdate` constructor, but the record declares three
  components: key, value and clock. The model keeps all three and leaves the clock `null` in every update.
  The JSON mapping ignores that clock, so updates received over `/update` have no clock either.
- `IsNewerThan` has no `modifies` clause, so Dafny checks that neither clock changes.
- `CacheEntry` is a datatype, so `IsExpired` cannot change the entry.
- These functions have no contract of their own: `VectorClocks.Incremented`, `VectorClocks.Count`,
  `CacheModel.CacheEntry.IsExpired`, `NodeStartup.Join`, `NodeStartup.Split` and `NodeStartup.PeerNodes`.
  The lemmas listed below state their properties.

## Model

| member | source | states |
|---|---|---|
| `VectorClocks.VectorClock.constructor` | src/main/java/com/jikkosoft/cache/impl/VectorClock.java:7 | a new clock has no entries and meets the invariant that every counter is at least 1 |
| `VectorClocks.VectorClock.Increment` | src/main/java/com/jikkosoft/cache/impl/VectorClock.java:9-11 | the counters become `Incremented(old counters, nodeId)`: the node's counter is set to 1 if absent, otherwise raised by one; the invariant is kept |
| `VectorClocks.IncrementedCounters` | src/main/java/com/jikkosoft/cache/impl/VectorClock.java:10 | after an increment, the keys are the old keys plus the node id. The node's counter is 1 or old+1, every other counter is unchanged, no counter decreases, and all counters stay at least 1 |
| `VectorClocks.VectorClock.IsNewerThan` | src/main/java/com/jikkosoft/cache/impl/VectorClock.java:13-25 | the loop, its early `false` included, answers exactly `IsNewer`. That holds when no shared node id has a smaller counter here and some id of this clock is unknown to the other clock or larger here |
| `VectorClocks.IsNewerIrreflexive` | src/main/java/com/jikkosoft/cache/impl/VectorClock.java:13-25 | a clock is never newer than itself |
| `VectorClocks.EmptyNeverNewer` | src/main/java/com/jikkosoft/cache/impl/VectorClock.java:13-25 | an empty clock is newer than no clock (the loop runs zero times) |
| `VectorClocks.NonEmptyNewerThanEmpty` | src/main/java/com/jikkosoft/cache/impl/VectorClock.java:15-21 | a clock with at least one entry is newer than the empty clock |
| `VectorClocks.IncrementedIsNewer` | src/main/java/com/jikkosoft/cache/impl/VectorClock.java:9-25 | after `increment(n)` the clock is newer than it was, and the old clock is not newer than the new one |
| `VectorClocks.DisjointClocksBothNewer` | src/main/java/com/jikkosoft/cache/impl/VectorClock.java:15-23 | ids known only to the other clock are ignored, so two non-empty clocks over disjoint ids are each newer than the other |
| `VectorClocks.IsNewerNotAntisymmetric` | src/main/java/com/jikkosoft/cache/impl/VectorClock.java:15-23 | concrete clocks `{a:1}` and `{b:1}` are each newer than the other |
| `VectorClocks.IsNewerNotTransitive` | src/main/java/com/jikkosoft/cache/impl/VectorClock.java:13-25 | `{a:1}` is newer than `{b:1}`, which is newer than `{a:2}`, yet `{a:1}` is not newer than `{a:2}` |
| `VectorClocks.DominatesIrreflexive` | src/main/java/com/jikkosoft/cache/impl/VectorClock.java:13-25 | corrected comparison (missing counters read as zero on both sides): no clock dominates itself |
| `VectorClocks.DominatesTransitive` | src/main/java/com/jikkosoft/cache/impl/VectorClock.java:13-25 | corrected comparison: dominance is transitive |
| `VectorClocks.DominatesAsymmetric` | src/main/java/com/jikkosoft/cache/impl/VectorClock.java:13-25 | corrected comparison: two clocks never dominate each other |
| `VectorClocks.IsNewerAgreesWithDominates` | src/main/java/com/jikkosoft/cache/impl/VectorClock.java:13-25 | with positive counters, and the other clock knowing no id this one does not, the code's relation holds exactly when dominance does (both directions) |
| `VectorClocks.ConcurrentClocksNotDominating` | src/main/java/com/jikkosoft/cache/impl/VectorClock.java:15-23 | the clocks `{a:1}` and `{b:1}`, each newer than the other as written, dominate neither way |
| `CacheModel.ExpiredIffPastDeadline` | src/main/java/com/jikkosoft/cache/model/CacheEntry.java:6-8 | an entry is expired exactly when `now` is past its timestamp plus the TTL |
| `CacheModel.NotExpiredAtDeadline` | src/main/java/com/jikkosoft/cache/model/CacheEntry.java:7 | the comparison is strict: at `now == timestamp + ttl` the entry is not expired |
| `CacheModel.ExpiryMonotoneInTime` | src/main/java/com/jikkosoft/cache/model/CacheEntry.java:7 | an entry expired at `now` is expired at every later time |
| `CacheModel.ExpiryAntitoneInTtl` | src/main/java/com/jikkosoft/cache/model/CacheEntry.java:7 | an entry expired under a TTL is expired under every smaller TTL |
| `CacheModel.NotExpiredBeforeInsertion` | src/main/java/com/jikkosoft/cache/model/CacheEntry.java:7 | with a TTL of at least 0, an entry checked no later than its timestamp is not expired |
| `DistributedCaches.Notifications` | src/main/java/com/jikkosoft/cache/impl/DistributedCache.java:91-96 | exactly one notification per peer, in peer-list order, each with the same update; none for an empty peer list |
| `DistributedCaches.ExtractKey` | src/main/java/com/jikkosoft/cache/impl/DistributedCache.java:59-63 | a key is found exactly when the query is present and starts with `key=`, and the query is then `key=` followed by the key; otherwise the key is null |
| `DistributedCaches.ExtractKeyOfParam` | src/main/java/com/jikkosoft/cache/impl/DistributedCache.java:59-63 | the query `key=` + k yields exactly k |
| `DistributedCaches.DistributedCache.constructor` | src/main/java/com/jikkosoft/cache/impl/DistributedCache.java:23-27 | a new node keeps the given port and peer list, starts with an empty map, and has sent nothing |
| `DistributedCaches.DistributedCache.Get` | src/main/java/com/jikkosoft/cache/impl/DistributedCache.java:87-89 | present exactly when the key has an entry, with the stored value; it only reads the node |
| `DistributedCaches.DistributedCache.Put` | src/main/java/com/jikkosoft/cache/impl/DistributedCache.java:82-85 | the key now maps to the value, overwriting any earlier value, and `Get` returns it. Every other key reads as before. The peers' notifications (key, value, no clock) are appended to `sent` |
| `DistributedCaches.DistributedCache.NotifyOtherNodes` | src/main/java/com/jikkosoft/cache/impl/DistributedCache.java:91-96 | appends `Notifications(peerNodes, update)` to `sent`, one at a time in peer order, and changes nothing else |
| `DistributedCaches.DistributedCache.SendNotification` | src/main/java/com/jikkosoft/cache/impl/DistributedCache.java:98-121 | the one notification is appended to `sent` |
| `DistributedCaches.DistributedCache.HandleUpdateRequest` | src/main/java/com/jikkosoft/cache/impl/DistributedCache.java:41-54 | an undecodable body gives 500 and changes nothing. A decoded update is stored unconditionally (no clock comparison) and fanned out again to every peer, and the answer is 200 |
| `DistributedCaches.DistributedCache.HandleGetRequest` | src/main/java/com/jikkosoft/cache/impl/DistributedCache.java:56-80 | a non-GET method gives 405. A GET without a `key=` query aborts (the null-key lookup throws). Otherwise a stored value gives 200 with the value as body, and a missing one gives 404 with an empty body |
| `NodeStartup.Fields` | src/main/java/com/jikkosoft/Main.java:12 | splitting on commas gives at least one field, and no field contains a comma |
| `NodeStartup.DropTrailingEmpty` | src/main/java/com/jikkosoft/Main.java:12 | the result is a prefix of the fields that does not end in an empty string, and only empty fields were removed |
| `NodeStartup.NonEmpty` | src/main/java/com/jikkosoft/Main.java:13 | no element of the result is empty, every element comes from the input, and every non-empty input field is kept |
| `NodeStartup.JoinFields` | src/main/java/com/jikkosoft/Main.java:12 | joining the fields of a string with commas gives the string back |
| `NodeStartup.FieldsJoin` | src/main/java/com/jikkosoft/Main.java:12 | comma-free fields joined with commas split back into exactly those fields |
| `NodeStartup.NonEmptyIgnoresTrailingEmpty` | src/main/java/com/jikkosoft/Main.java:12-13 | dropping trailing empty fields, as Java's `split` does, does not change the filtered list |
| `NodeStartup.PeerNodesAreNonEmptyFields` | src/main/java/com/jikkosoft/Main.java:11-14 | the peer list is exactly the non-empty comma-separated fields of the setting, in order |
| `NodeStartup.PeerNodesWellFormed` | src/main/java/com/jikkosoft/Main.java:12-14 | no peer is the empty string and no peer contains a comma |
| `NodeStartup.PeerNodesOfJoin` | src/main/java/com/jikkosoft/Main.java:12-14 | peers written with commas between them come back, less the empty ones, in order |
| `NodeStartup.EmptySettingHasNoPeers` | src/main/java/com/jikkosoft/Main.java:11-14 | the default empty setting gives an empty peer list |
| `NodeStartup.SinglePeer` | src/main/java/com/jikkosoft/Main.java:12-14 | a non-empty setting without a comma gives the one-element list of the setting itself |
| `NodeStartup.Launch` | src/main/java/com/jikkosoft/Main.java:11-16 | the node is built with the given port and the parsed peer list, with an empty map and nothing sent |

## Findings

| source | as written | input that shows it | evidently intended | confidence | as-written member | corrected member |
|---|---|---|---|---|---|---|
| src/main/java/com/jikkosoft/cache/impl/VectorClock.java:15-23 | only this clock's entries are visited, so a node id known only to `other` never makes this clock older; the relation is neither antisymmetric nor transitive | `{a:1}` and `{b:1}` are each newer than the other; `{a:1}` is newer than `{b:1}`, which is newer than `{a:2}`, yet `{a:1}` is not newer than `{a:2}` | vector-clock dominance with missing counters read as zero on both sides, a strict partial order as the design describes; it agrees with the code whenever the other clock's ids are among this clock's | medium; not executed | `VectorClocks.IsNewerNotAntisymmetric`, `VectorClocks.IsNewerNotTransitive` | `VectorClocks.Dominates`, with `VectorClocks.DominatesTransitive`, `VectorClocks.DominatesIrreflexive` and `VectorClocks.IsNewerAgreesWithDominates` |

`VectorClock.IsNewerThan` keeps the code's behaviour, because that is what the class does. No other part of
the core compares clocks, so no other member uses either relation.

## Left out

- HTTP server and exchange I/O: creating the server, the thread pool, reading bodies, sending headers and
  bodies, and closing exchanges. These are transport. Only the handlers' decisions are modelled.
- The 500 answers caused by an I/O error while a response is written. They come from the transport, which
  is not modelled.
- Peer delivery over the network: opening the connection, the POST and its response code. The logging,
  and the executor-based `NotificationServiceImpl` with its `shutdown`, are left out too. All of this is
  network I/O and concurrency. A delivery is only the `PeerNotification` record appended to `sent`.
- JSON encoding and decoding. These are library calls. `HandleUpdateRequest` receives the decoded update,
  or `None` when decoding failed.
- Null handling: keys and values in the model are always strings. A JSON body without a key or value
  (which would make the map throw) is not modelled. A get query without `key=` is modelled as the outcome
  `Aborted`.
- Character encoding of response bodies (`getBytes`): bodies are strings.
- Concurrency: the concurrent map and the thread pools. All operations are sequential.
- The wall clock: `CacheModel.CacheEntry.IsExpired` takes `now` as a parameter.
- Reading `PORT` and `PEER_NODES` from the environment and parsing the port number are I/O and library
  parsing. `Launch` takes both as parameters. The demonstration `put`/`get` and console output at the end
  of start-up are left out.
- `VectorClocks.VectorClock.Increment`: does not model the 32-bit `Integer` wrap-around of a counter; counters are unbounded.
- `CacheModel.CacheEntry.IsExpired`: does not model `long` overflow of `now - timestamp`; times are unbounded integers.
- TTL sweeping, leader gating and clock-gated writes. The design describes them, but no code in the core
  implements them.
