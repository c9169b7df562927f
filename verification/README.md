# Verified model of EasyProxyPool

EasyProxyPool keeps a pool of upstream proxies and serves HTTP and SOCKS5 clients through it. This
project models the parts that decide: which upstream a request goes through and what a failure does to
later requests, how the pool is refilled, how node specs become an xray configuration, how the xray
process is managed, and how log events reach a browser. Sockets, files, clocks, hashes and process
start-up are parameters: every theorem holds for whatever they do.

`dafny verify dfyconfig.toml` checks everything.

## How it is organised

- `Base`, `GoText`, `Powers`, `ModLaws`, `Sorting`, `Permutations`, `Dedup`, `Counters`: vocabulary
  shared by the rest, with the laws of sorting, rearranging, keeping first occurrences and counting.
- `ProxyPool`, `RoundRobinLaws`, `BackoffLaws`, `PoolLaws`: the pool as a class over an entry array and a
  key index, and what follows for single operations and for runs of them.
- `Fnv`, `Rendezvous`, `HashInput`: the score (64-bit arithmetic as integers modulo 2^64, characters as
  UTF-8 bytes), the pick, and what the hashed bytes tell.
- `Failover`, `FailoverLaws`, `FailoverClockLaws`, `OutcomeLaws`, `RequestPolicy`: the retry loops, what they
  leave behind, and what a request's headers decide before them. Each attempt meets a `World`: what other goroutines do to the pool before
  and during the dial, clock readings, and the dial's outcome.
- `KeepAlive`: the connections the HTTP client keeps for forwarded requests, as a step machine.
- `LogStream`, `LogBuffer`, `LogServer`, `SseSlots`: the unbounded history as specification, the ring
  buffer with its subscribers as a class refining it, the streaming handler, and its slots as a step
  machine over clients.
- `FanOut`: the health-check goroutines as a step machine.
- `NodeSpec`, `Fields`, `HeaderLaws`, `HeaderCollisions`, `NodeIdentity`: specs, their canonical strings and identifiers, and
  what of a spec its string tells.
- `XrayConfig`, `OutboundLaws`, `MergeLaws`, `XrayConfigLaws`: the translation of specs to a configuration
  tree whose rules mean their first match, and what deduplication may cost.
- `XrayInstance`: the process manager, as a function, as single steps, and as a class.
- `UpdateData`, `UpdaterRuns`, `UpdateOnce`: what an update loads and builds, all interleavings of
  updates with requests, shutdown and crashes, and one update as methods over the pool and the manager,
  proved to be a run of that machine.

## Where the code differs from what one might expect

- The configuration comments (`internal/config/config.go:118-120`) say that hard failover prefers
  staying on the top-ranked upstream. The code marks the failed upstream disabled, so within its backoff
  hard failover moves on exactly as soft failover does (`HardEqualsSoftWithinBackoff`); it stays iff the
  backoff is over by the next attempt (`HardStaysIffBackoffOver`). A forced upstream that fails is picked
  again on the same condition, and otherwise the request ends as "unknown upstream"
  (`ForcedRetryIffBackoffOver`).
- The upstream a forwarded request picks need not be the one that carries it: all forwarded requests share
  one HTTP client, which keeps connections alive by host, whichever upstream they were dialled through
  (`CarriersIff`). Success and failure are marked on the pick. A request that names its upstream is sure to
  go through it iff no other forwarded request for the host picked another (`ForcedConfinedIff`). CONNECT
  and SOCKS5 dial for every request.
- `Next` treats the instant `disabledUntil` itself as disabled; `Get`, `Active` and `Stats` treat it as
  enabled.
- Round robin serves every entry in n calls except across a wrap-around of its 64-bit counter, where the
  exact condition is `ServesAllIff`.
- A log stream takes its snapshot and subscribes in two critical sections; events in between are not
  emitted, nor are events that had left the ring. `GaplessIff` says exactly when nothing is lost, and
  `ResumedGaplessIff` when a client that comes back misses nothing.
- `Ensure` trusts its record of a started process: after a crash, the same hash reports success with
  nothing running (`CrashedIsTakenForRunning`, exact condition `EnsuredRunsIff`).
- Canonical strings are ambiguous where a field contains what ends it: for logins exactly where `|pass=`
  occurs in user or password (`LoginAmbiguousIff`), in general as `CanonicalShareIff`
  says. Elsewhere they identify the node (`CanonicalIffSameNode`).
- The value of a header whose name has capitals, such as `Host`, does not enter the canonical string
  (`SameNamesTextIff`), so nodes that differ in it alone are merged and all but one dropped
  (`HostHeaderDropped`). `DeduplicationLosesNothingIff` says exactly when merging costs no connection.
- The text of two or more headers is also the text of some other headers, as values are not escaped;
  `DoubleIff` says which maps have such a double.

## Model

| member | source | states |
|---|---|---|
| `ProxyPool.Pool.constructor` | internal/pool/pool.go:48-55 | a new pool is empty, indexed, and not updating |
| `ProxyPool.Pool.UpdatingCAS` | internal/pool/pool.go:59-61 | sets the flag and succeeds iff it was clear |
| `ProxyPool.Pool.UpdatingClear` | internal/pool/pool.go:63-65 | clears the flag |
| `ProxyPool.Pool.Update` | internal/pool/pool.go:67-80 | takes over the given array, maps every key to its last position, and restarts the counter |
| `ProxyPool.Pool.Next` | internal/pool/pool.go:82-110 | the entry the strategy finds among selectable entries, and a counter moved by one modulo 2^64 only under round robin |
| `ProxyPool.Pool.DrawRandomly` | internal/pool/pool.go:91-98 | n draws, the first that hits a selectable entry, else none |
| `ProxyPool.Pool.ProbeFrom` | internal/pool/pool.go:100-108 | the first selectable entry cyclically from the start, else none |
| `ProxyPool.NextOf` | internal/pool/pool.go:82-110 | entries untouched; a returned entry is selectable, strictly after its disabledUntil, under either strategy |
| `ProxyPool.Pool.Get` | internal/pool/pool.go:112-125 | the last entry with the key if it is enabled, boundary instant included, else none |
| `ProxyPool.Pool.Active` | internal/pool/pool.go:127-140 | exactly the enabled entries, in pool order |
| `ProxyPool.Pool.MarkSuccess` | internal/pool/pool.go:142-151 | clears failures and disabledUntil of the last entry with the key; an unknown key changes nothing; the index stays right |
| `ProxyPool.Pool.Backoff` | internal/pool/pool.go:164-171 | the doubling loop, with 64-bit wrap-around and the cap on later backoffs only |
| `ProxyPool.Pool.MarkFailure` | internal/pool/pool.go:153-173 | counts the failure on the last entry with the key and disables it for the backoff; the index stays right |
| `ProxyPool.Pool.Stats` | internal/pool/pool.go:182-205 | total, disabled, latest check and whether any entry is active, by the boundary rule of Get |
| `ProxyPool.LastIndex` | internal/pool/pool.go:73-76 | linear scan for the last position of a key: what the index is proved to refine in every valid pool |
| `ProxyPool.KeysKeepIndex` | internal/pool/pool.go:142-173 | an operation that keeps the keys in place leaves every index lookup unchanged |
| `RoundRobinLaws.ApplyKeepsKeys` | internal/pool/pool.go:82-173 | no operation but Update changes any entry's position or key |
| `RoundRobinLaws.ApplyAllKeepsKeys` | internal/pool/pool.go:82-173 | nor does any sequence of them |
| `RoundRobinLaws.NextFailsIffNoneSelectable` | internal/pool/pool.go:86-108 | round-robin Next fails iff no entry is selectable |
| `RoundRobinLaws.CounterAfter` | internal/pool/pool.go:100 | after any interleaving the counter is its start plus the number of Next calls, modulo 2^64 |
| `RoundRobinLaws.ServedWhenReached` | internal/pool/pool.go:99-108 | the call whose start is a position selectable throughout returns that position, whatever marks are interleaved |
| `RoundRobinLaws.NoStarvation` | internal/pool/pool.go:99-108 | an entry selectable at each of n consecutive Next calls is returned by one of them, marks interleaved at will |
| `RoundRobinLaws.ServesAllIff` | internal/pool/pool.go:99-108 | n calls over n selectable entries serve all of them iff the 64-bit counter does not wrap inside the window, wraps right at its start, or n divides 2^64 |
| `RoundRobinLaws.WrapSkips` | internal/pool/pool.go:100 | otherwise the named position is skipped by all n calls |
| `RoundRobinLaws.Fairness` | internal/pool/pool.go:99-108 | with every entry selectable and no wrap-around, m calls return each entry floor(m/n) or ceil(m/n) times |
| `BackoffLaws.BackoffClosedForm` | internal/pool/pool.go:164-171 | the loop yields base after one failure and min(base*2^(f-1), max) after f >= 2, free of overflow when twice base and twice max are below 2^63 |
| `BackoffLaws.NondecreasingIff` | internal/pool/pool.go:164-171 | backoffs never shrink from one failure to the next iff base <= max |
| `BackoffLaws.BackoffAtLeastShortest` | internal/pool/pool.go:164-171 | a failed entry stays away for at least base, or max where that is less |
| `BackoffLaws.ShortestBackoffIff` | internal/pool/pool.go:164-171 | no longer time is certain: a time is a lower bound of all backoffs iff it exceeds neither base nor max |
| `BackoffLaws.WrapIsTwosComplement` | internal/pool/pool.go:166 | 64-bit wrap-around: within bounds and the same modulo 2^64 |
| `BackoffLaws.OverflowEndsBackoff` | internal/pool/pool.go:164-171 | beyond such settings doubling overflows: with a base of 2^62 the second failure in a row gets a negative backoff |
| `BackoffLaws.ConsecutiveFailures` | internal/pool/pool.go:142-173 | after f failures with no success in between, amid any other operations, the entry is disabled until the closed form has passed since the last |
| `BackoffLaws.SuccessResets` | internal/pool/pool.go:142-151 | after one success the next failure is again worth base alone |
| `BackoffLaws.OpOnEntry` | internal/pool/pool.go:142-173 | what each operation does to the entry a key stands for: success resets, failure backs off, all else leaves it alone |
| `BackoffLaws.IndexIsBijection` | internal/pool/pool.go:73-76 | with distinct keys looking up the key of a position gives that position |
| `PoolLaws.SameKeyIff` | internal/pool/pool.go:24-32 | an identifier is a key of its own; without identifiers two entries share a key iff they have one address and one user, blank users being none |
| `PoolLaws.MarksTouchOne` | internal/pool/pool.go:142-173 | a mark changes the entry its key stands for and no other |
| `PoolLaws.SuccessMakesAvailable` | internal/pool/pool.go:142-151 | after a success the upstream can be had by its key and selected at any time, with no failures, whatever came before |
| `PoolLaws.AwayExactly` | internal/pool/pool.go:86-125 | after f failures an entry can be had by its key exactly from the end of the closed-form backoff on, and selected exactly after it |
| `PoolLaws.RandomReturnsFirstHit` | internal/pool/pool.go:91-98 | the random strategy returns the first selectable entry among n draws, fails iff no draw hits one, and leaves the counter alone |
| `PoolLaws.UpdateRestarts` | internal/pool/pool.go:77-79 | after an update round robin begins at position 1, or at the only entry |
| `Fnv.StepBijective` | internal/server/httpproxy/sticky.go:132-133 | one byte step is a bijection on 64-bit states |
| `Fnv.StepSeparatesBytes` | internal/server/httpproxy/sticky.go:132-133 | from one state different bytes lead to different states |
| `Fnv.AbsorbInjective` | internal/server/httpproxy/sticky.go:131-140 | different states stay different under any same bytes |
| `Fnv.OneByteNeverCollides` | internal/server/httpproxy/sticky.go:131-140 | inputs of one length that differ in exactly one byte never hash alike |
| `Fnv.PublishedHashes` | internal/server/httpproxy/sticky.go:127-141 | the published 64-bit FNV-1a hashes of the empty text and of "a" |
| `Rendezvous.HrwScore` | internal/server/httpproxy/sticky.go:125-142 | the three-stage loop computes 64-bit FNV-1a of session, zero byte, node key |
| `HashInput.ScoreTellsApart` | internal/server/httpproxy/sticky.go:125-142 | the score is the hash of bytes from which, sessions being free of zero characters, session and node key can be read off |
| `Rendezvous.PickRendezvous` | internal/server/httpproxy/sticky.go:144-165 | the loop returns the candidate at the position of the first highest score among keys not excluded, none iff all are |
| `Rendezvous.WinnerBeatsAll` | internal/server/httpproxy/sticky.go:149-162 | that candidate beats every other one not excluded: higher score, or equal score and earlier position |
| `Rendezvous.WinnerUnique` | internal/server/httpproxy/sticky.go:149-162 | no other candidate does |
| `Rendezvous.LosersAreIrrelevant` | internal/server/httpproxy/sticky.go:144-165 | any subsequence of the candidates that keeps the winner has the same winner |
| `Rendezvous.NewcomerTakesOnlyItsOwn` | internal/server/httpproxy/sticky.go:144-165 | a candidate inserted anywhere changes the pick only to itself, exactly when it beats the old winner |
| `Rendezvous.OrderIrrelevant` | internal/server/httpproxy/sticky.go:144-165 | with no ties between different keys the picked key depends on the set of candidates alone |
| `Rendezvous.PairOrderMattersIffTie` | internal/server/httpproxy/sticky.go:157 | for two candidates the order matters iff their scores tie |
| `Rendezvous.OneByteNodesNeverTie` | internal/server/httpproxy/sticky.go:125-142 | node keys of one length differing in one byte tie for no session |
| `Rendezvous.OneByteSessionsNeverTie` | internal/server/httpproxy/sticky.go:125-142 | sessions of one length differing in one byte score every node differently |
| `Rendezvous.RankingIsRanking` | internal/server/httpproxy/sticky.go:144-165 | the ranking lists every candidate once in descending preference |
| `Rendezvous.PickAfterTop` | internal/server/httpproxy/sticky.go:144-165 | with the first k of the ranking excluded the pick is number k of the ranking |
| `Failover.PickUpstream` | internal/server/httpproxy/proxy.go:218-240 | forced, sticky or plain selection of one attempt, and what it does to the pool |
| `Failover.HandleConnect` | internal/server/httpproxy/proxy.go:214-272 | the CONNECT loop: its picks, final pool and verdict are those of the attempts, for any behaviour of clocks, dials and other goroutines |
| `Failover.HandleForward` | internal/server/httpproxy/proxy.go:302-354 | the forwarding loop likewise, stopping at once where the request is not retryable |
| `Failover.Dial` | internal/server/socks5proxy/server.go:123-141 | the SOCKS5 loop likewise, stamping failures with a second clock reading |
| `FailoverLaws.SoftNeverRepeats` | internal/server/httpproxy/proxy.go:230-249 | soft failover never picks a key twice and makes at most retries + 1 attempts, even with the pool updated in between |
| `FailoverLaws.SoftWalksRanking` | internal/server/httpproxy/proxy.go:227-249 | with distinct keys and untried entries keeping their eligibility, attempt k picks number k of the ranking, and upstreams run out only after the last |
| `FailoverClockLaws.SoftIsHard` | internal/server/httpproxy/proxy.go:227-249 | soft and hard failover are the same request, pick by pick, while no upstream that failed in it is active again |
| `FailoverClockLaws.HardEqualsSoftWithinBackoff` | internal/server/httpproxy/proxy.go:227-249 | so they are while all retries come within the shorter of base and max backoff, these being free of overflow, and nobody else updates the pool or marks what the request has tried; hard failover then picks no upstream twice |
| `FailoverClockLaws.HardStaysIffBackoffOver` | internal/server/httpproxy/proxy.go:217-249 | at any attempt of the loop that fails: hard failover picks the same upstream next iff the next attempt comes no earlier than the end of its backoff; others may do anything up to the failure, and then anything but update the pool or mark this key, the other entries being as eligible as they were |
| `FailoverClockLaws.ForcedRetryIffBackoffOver` | internal/server/httpproxy/proxy.go:217-226 | at any attempt that fails: a forced upstream is picked again iff it is still in the pool and its backoff is over, else the request ends as unknown upstream; others may do anything up to the failure, and then anything but update the pool or mark this key |
| `FailoverLaws.ForcedPicksOnlyNamed` | internal/server/httpproxy/proxy.go:221-226 | a forced request picks the upstream it names and no other, whatever others do |
| `FailoverClockLaws.DialNeverRepeats` | internal/server/socks5proxy/server.go:125-136 | the SOCKS5 loop dials no upstream twice as long as none that failed earlier in the request can be selected again, whatever others do, pool updates included |
| `FailoverClockLaws.DialNeverRepeatsWithinBackoff` | internal/server/socks5proxy/server.go:125-136 | which holds while retries come within the shorter of base and max backoff, boundary included, these being free of overflow, and nobody else updates the pool or marks what the request has tried |
| `FailoverClockLaws.PlainIsDial` | internal/server/httpproxy/proxy.go:234-250 | a retryable request that is neither sticky nor forced takes the attempts of the SOCKS5 loop, on one clock |
| `FailoverClockLaws.PlainNeverRepeats` | internal/server/httpproxy/proxy.go:234-250 | so the HTTP loops pick no upstream twice for it under the same condition, nor for one that may not be retried |
| `FailoverClockLaws.PlainNeverRepeatsWithinBackoff` | internal/server/httpproxy/proxy.go:234-250 | which holds within the shorter of base and max backoff as for the SOCKS5 loop |
| `OutcomeLaws.AttemptMarksItsPick` | internal/server/httpproxy/proxy.go:227-251 | an attempt marks the upstream it picked, as it then is in the pool: failures and backoff cleared when it got through, one failure more as of the pick when not; it marks no other |
| `OutcomeLaws.DialMarksItsPick` | internal/server/socks5proxy/server.go:125-137 | the SOCKS5 loop picks by the configured strategy and marks likewise, failures as of a later clock reading |
| `OutcomeLaws.PlainPicksByStrategy` | internal/server/httpproxy/proxy.go:234-236 | a request that is neither sticky nor forced is served by the configured strategy |
| `OutcomeLaws.SuccessClears` | internal/server/httpproxy/proxy.go:251 | a request that gets through leaves its upstream, if still in the pool, with no failures and enabled, whatever others did |
| `OutcomeLaws.DialSuccessClears` | internal/server/socks5proxy/server.go:137 | so does the SOCKS5 loop |
| `OutcomeLaws.VerdictTells` | internal/server/httpproxy/proxy.go:217-272 | established means the last pick got through and all before failed; given up, that all attempts allowed failed; no upstream, or no such upstream where one was named, that the picks so far failed and none was left |
| `OutcomeLaws.DialVerdictTells` | internal/server/socks5proxy/server.go:123-141 | the same for the SOCKS5 loop |
| `RequestPolicy.SpellingIrrelevant` | internal/server/httpproxy/sticky.go:92-121 | blanks put around the headers and another case of the letters of the switches never change the policy, nor whether there is one |
| `RequestPolicy.SwitchesDecide` | internal/server/httpproxy/sticky.go:92-121 | upstream, stickiness and failover mode of the policy: a usable header that is filled in decides, by its words, else the configuration |
| `RequestPolicy.SessionIs` | internal/server/httpproxy/sticky.go:74-90 | the session a request counts as: the one it names where it may, else the authenticated user to the letter, else the trace, else none |
| `RequestPolicy.SessionDecides` | internal/server/httpproxy/sticky.go:74-90 | requests that name one session and the same switches fare alike whatever their users and traces; where sessions may not be named, naming one changes nothing |
| `RequestPolicy.SwitchExamples` | internal/server/httpproxy/sticky.go:62-72 | " ON" followed by a tab switches on, "Off " off, "onn" neither |
| `RequestPolicy.HeadersDecide` | internal/server/httpproxy/sticky.go:92-121 | a request that names an upstream picks no other; that of a recognised client that wants stickiness with soft failover picks no upstream twice; whatever others do to the pool |
| `RequestPolicy.PlainIgnoresIdentity` | internal/server/httpproxy/proxy.go:218-250 | where stickiness is not wanted and no upstream is named, who the client is changes neither picks, pool nor outcome |
| `RequestPolicy.RejectedIff` | internal/server/httpproxy/sticky.go:98-118 | a request is turned away iff it may override and a switch, trimmed and lower-cased, is filled in with none of the words for it, listed in full |
| `RequestPolicy.IsRetryableRequest` | internal/server/httpproxy/proxy.go:385-396 | retryable iff without a body and GET, HEAD, OPTIONS or TRACE, or with leave to repeat other verbs |
| `RequestPolicy.RetriedIff` | internal/server/httpproxy/proxy.go:299-342 | some pool and world bring a forwarded request to a second attempt iff it has no body, a safe verb or leave, and retries are configured, whatever its policy |
| `KeepAlive.CarriersIff` | internal/server/httpproxy/proxy.go:55-71 | over all runs of the shared client, an attempt can be carried by exactly the upstreams that attempts for the same host picked |
| `KeepAlive.FaithfulIff` | internal/server/httpproxy/proxy.go:55-71 | every attempt is carried by its pick in every run iff all attempts for one host pick one upstream |
| `KeepAlive.ForcedConfinedIff` | internal/server/httpproxy/proxy.go:329-342 | a forced request among others is carried by the upstream it names in every run iff no other for the host picked another |
| `LogBuffer.LogBuffer.constructor` | internal/logging/logbuffer.go:31-42 | an empty buffer; a capacity below zero counts as zero |
| `LogBuffer.LogBuffer.Store` | internal/logging/logbuffer.go:48-59 | writing into the ring keeps it equal to the last `capacity` events of the history, capacity 0 included |
| `LogBuffer.LogBuffer.Broadcast` | internal/logging/logbuffer.go:61-68 | every subscriber with room gets the event, every other is closed and dropped, in whatever order the map yields them; room is a queue shorter than its capacity |
| `LogBuffer.LogBuffer.Append` | internal/logging/logbuffer.go:44-70 | stamps the next ID, appends to the history, and offers to all subscribers |
| `LogBuffer.LogBuffer.SnapshotSince` | internal/logging/logbuffer.go:72-92 | the order-preserving filter of the last `capacity` events of the whole history |
| `LogBuffer.LogBuffer.Subscribe` | internal/logging/logbuffer.go:94-118 | a fresh channel joined at the current end of the history; a non-positive size means 256 |
| `LogBuffer.LogBuffer.Cancel` | internal/logging/logbuffer.go:110-117 | closes and removes a subscription that is still there, else nothing |
| `LogBuffer.SlotHoldsID` | internal/logging/logbuffer.go:52-58 | slot (start+i) mod capacity holds the event with ID nextID-size+1+i |
| `LogBuffer.OverwriteKeepsRing` | internal/logging/logbuffer.go:52-58 | overwriting the oldest slot and moving start keeps the ring |
| `LogStream.OfferKeepsGood` | internal/logging/logbuffer.go:61-68 | an event is never offered to a closed channel, and overflow closes it for the first time |
| `LogStream.SubscribeIsFresh` | internal/logging/logbuffer.go:94-118 | a subscription has a number not seen before and an empty open queue of the size asked for, 256 by default; others are left alone |
| `LogStream.AppendReachesIff` | internal/logging/logbuffer.go:44-70 | an event gets the next ID and is queued for a subscriber whose queue is not full, who stays; one whose queue is full is closed and dropped, its queue as it was |
| `LogStream.SubscriptionEndsIff` | internal/logging/logbuffer.go:61-68 | one operation ends a subscription iff it is its cancellation, or an event its full queue has no room for |
| `LogStream.EndOfSubscription` | internal/logging/logbuffer.go:44-119 | over every run, a subscription that is over was ended by its cancellation or by an event that met its queue full |
| `LogStream.ReceiveTakesOldest` | internal/logging/logbuffer.go:61-64 | a receive hands over the oldest queued event and changes nothing else |
| `LogStream.EveryRunGood` | internal/logging/logbuffer.go:44-119 | over every run: closed iff absent from subs, closed at most once, received plus queued events are one gapless block of the history from the subscription on, up to date while subscribed |
| `LogStream.ClosedOnlyDrains` | internal/logging/logbuffer.go:61-68 | a closed channel is never sent to or closed again; it only drains |
| `LogStream.FilterKeepsOrder` | internal/logging/logbuffer.go:80-91 | filtering keeps order and keeps exactly the events beyond the ID and of at least the level |
| `LogStream.StreamIncreasing` | internal/server/admin/admin.go:262-303 | emitted IDs strictly increase, for any number of events between snapshot and subscription and any drop point |
| `LogStream.GaplessIff` | internal/server/admin/admin.go:262-303 | the stream is everything that passes, up to the last event taken, iff no event that passes had left the ring by snapshot time or fell between snapshot and subscription |
| `LogStream.ResumedGaplessIff` | internal/server/admin/admin.go:247-303 | a client that comes back with the last ID it was sent gets the rest, nothing twice, iff no event beyond that ID that passes is missed by the new stream |
| `LogServer.TurnKeepsFollowing` | internal/server/admin/admin.go:290-301 | the moving cursor decides on each received event exactly as the requested ID would |
| `LogServer.AdminServer.SendSnapshot` | internal/server/admin/admin.go:262-268 | the snapshot up to the first failed write, whether all was written, and the cursor it leaves |
| `LogServer.AdminServer.Follow` | internal/server/admin/admin.go:281-303 | the channel loop takes the turns the specification takes: the same events sent, the same buffer afterwards, up to the turn that ends it |
| `LogServer.DeliverySends` | internal/server/admin/admin.go:290-301 | a turn with events queued takes the oldest and sends it iff it is beyond the requested ID, of the level, and can be written |
| `LogServer.StreamIsStretch` | internal/server/admin/admin.go:281-303 | whatever the turns, what is sent is what passes in one stretch of the history from the subscription on |
| `LogServer.UnbrokenMissesNothing` | internal/server/admin/admin.go:281-303 | a client that stays and can be written to is sent all that passes of what its channel handed over, the whole later history once drained and still subscribed, and is let go only when its channel is closed and drained |
| `LogServer.SlowClientKeepsUp` | internal/server/admin/admin.go:270-303 | while others append no more than 256 events a client loses none of them, however slowly it reads |
| `LogServer.AdminServer.StreamLogs` | internal/server/admin/admin.go:262-303 | the whole session: the filtered ring as far as it could be written, then, if all was, a subscription of 256 with what happened in between, its turns and its cancellation; strictly increasing |
| `LogServer.AdminServer.HandleLogsSSE` | internal/server/admin/admin.go:228-304 | which reply when; the slot is given back on every path; a refused client leaves the buffer alone; a stream is as StreamLogs says |
| `SseSlots.CapHolds` | internal/server/admin/admin.go:228-235 | in every interleaving of clients at most the configured number stream, and a client is refused iff that many do |
| `SseSlots.LeavingNeverWaits` | internal/server/admin/admin.go:231 | giving a slot back never waits |
| `SseSlots.EachSlotReturnedOnce` | internal/server/admin/admin.go:229-231 | a client that was served and is gone has given back exactly one slot, any other none |
| `FanOut.StepKeepsInv` | internal/orchestrator/updater.go:248-283 | every step of every goroutine keeps the invariant: semaphore and wait-group counts, closing, and each live proxy reported once |
| `FanOut.SendNeverBlocks` | internal/orchestrator/updater.go:249-262 | a worker that wants to send always finds room on the open result channel |
| `FanOut.NoDeadlock` | internal/orchestrator/updater.go:252-283 | some step is possible in every unfinished state |
| `FanOut.StepDecreasesMeasure` | internal/orchestrator/updater.go:252-283 | every step lowers a measure over the worker phases |
| `FanOut.ConcurrencyBounded` | internal/orchestrator/updater.go:248-256 | at every moment of every run the semaphore counts the workers holding it, at most the configured number |
| `FanOut.EveryRunEnds` | internal/orchestrator/updater.go:252-283 | no run takes more than 7n+4 steps, and one that cannot continue has finished |
| `FanOut.OutcomeIsLiveAddresses` | internal/orchestrator/updater.go:269-283 | a finished run yields exactly the addresses whose check succeeded, each once |
| `FanOut.AllSchedulesAgree` | internal/orchestrator/updater.go:252-283 | any two maximal runs of one job build the same entries up to order |
| `NodeSpec.CanonicalHeaders` | internal/upstream/spec.go:182-201 | one text for every order in which the map yields its keys |
| `HeaderLaws.SameNamesTextIff` | internal/upstream/spec.go:182-201 | under the same names, the text tells two header maps apart iff they differ under a name without capitals |
| `HeaderLaws.HeaderTextIff` | internal/upstream/spec.go:182-201 | maps of headers clear of the separators share a text iff they have the same lower-cased names and under each the same value, one of a name with capitals not counting |
| `HeaderCollisions.DoubleIff` | internal/upstream/spec.go:182-201 | different headers, their names differing by more than case, share the text of a map iff it has two or more, or the text of its one header can end the name at another = or holds a second header of a later name |
| `HeaderCollisions.AmpersandCollides` | internal/upstream/spec.go:192-199 | with an ampersand in a value different headers of the same names share a text |
| `NodeIdentity.CanonicalIffSameNode` | internal/upstream/spec.go:102-180 | for specs of all six types, equal canonical strings iff the same node: endpoint up to case and blanks, credentials, stream settings, headers as HeaderTextIff says, nil and empty configuration kept apart; provided no field contains the separator and label that end it |
| `NodeIdentity.CanonicalShareIff` | internal/upstream/spec.go:102-180 | whatever fields contain, every case in which two specs of known types have one string: type, endpoint and all fields equal, or the separator and label of a field moved between the field before it and what follows |
| `NodeIdentity.SameNodeSameString` | internal/upstream/spec.go:102-180 | the same node has one string, whatever its fields contain |
| `NodeIdentity.LoginsShareStringIff` | internal/upstream/spec.go:109-113 | two logins of one endpoint share a string iff they are equal or the text |pass= moved from the user of one into the password of the other |
| `NodeIdentity.LoginAmbiguousIff` | internal/upstream/spec.go:109-113 | some different login shares the string of a login iff |pass= occurs in its user or password |
| `NodeIdentity.PipeInUserCollides` | internal/upstream/spec.go:109-113 | a family of different logins that share a string |
| `NodeIdentity.CommaInUUIDCollides` | internal/upstream/spec.go:151-161 | a family of different VLESS nodes that share a string |
| `MergeLaws.SameNodeConnectsIff` | internal/upstream/spec.go:102-180 | two specs of one node ask for the same connection, in either mode, iff server, method and on WebSocket the headers are the same to the letter |
| `MergeLaws.DeduplicationLosesNothingIff` | internal/upstream/spec.go:259-274 | every input spec finds a kept one that asks for its connection iff specs of one node are so spelt alike, where the hash does not collide |
| `MergeLaws.HostHeaderDropped` | internal/upstream/spec.go:182-201 | two VMess nodes that differ in their Host header alone have one string and different outbounds, and one of them is dropped |
| `NodeSpec.Deduplicate` | internal/upstream/spec.go:259-274 | the loop with its seen map keeps the first spec of each identifier |
| `NodeSpec.DeduplicateIdentified` | internal/upstream/spec.go:259-274 | the result has non-blank, pairwise distinct identifiers, exactly those of the identified input |
| `NodeSpec.DeduplicateStaged` | internal/orchestrator/updater.go:321-342 | deduplicating a part first changes nothing in the deduplicated whole |
| `NodeSpec.DeduplicateIdempotent` | internal/upstream/spec.go:259-274 | deduplicating twice is deduplicating once |
| `Dedup.KeepFirstPositions` | internal/upstream/spec.go:262-272 | what is kept are the elements at the first positions of their keys, in order |
| `XrayConfig.Choose` | internal/xray/config.go:60-71 | the first loop: identifiers given, unsupported specs dropped and counted by type |
| `XrayConfig.Emit` | internal/xray/config.go:86-100 | the second loop: one account, outbound, rule and identifier per node |
| `XrayConfig.Generate` | internal/xray/config.go:44-172 | the checks in order, the node limit, and the tree for some result of the unstable sort |
| `XrayConfig.AnyResult` | internal/xray/config.go:44-172 | Generate always has a result |
| `XrayConfigLaws.GenerateSucceedsIff` | internal/xray/config.go:45-75 | generation succeeds iff all three options are filled in and no more specs are supported than the limit, 2000 by default |
| `XrayConfigLaws.ComplaintIs` | internal/xray/config.go:45-75 | which option or which numbers a failed generation complains about |
| `XrayConfigLaws.SupportedIff` | internal/xray/config.go:174-330 | which types are supported, with or without their configuration |
| `XrayConfigLaws.ProtocolIsType` | internal/xray/config.go:174-330 | the protocol of an outbound is the type of its spec, socks for SOCKS5 |
| `XrayConfigLaws.SurroundingsAre` | internal/xray/config.go:102-139 | password-protected SOCKS inbound with UDP, metrics where asked for, the way out and the kind of every rule |
| `OutboundLaws.OutboundRoundTrip` | internal/xray/config.go:174-349 | in either mode, reading the outbound of a supported spec back as a node gives the same connection: address, credentials, network, path, headers and TLS, certificate verification where the mode is strict |
| `OutboundLaws.OutboundsEqualIffSameConnection` | internal/xray/config.go:174-349 | in either mode, two supported specs have one outbound iff they ask for the same connection, up to blank credentials, blank server names, the spelling of the network and, when relaxed, certificate verification |
| `OutboundLaws.RelaxedOnlySkipsVerification` | internal/xray/config.go:332-345 | relaxed mode turns certificate verification off wherever TLS is on and changes nothing else |
| `XrayConfigLaws.SkippedByType` | internal/xray/config.go:66-69 | the skipped counts are, type by type, the numbers of unsupported specs |
| `XrayConfigLaws.Conservation` | internal/xray/config.go:60-100 | every spec is either included or counted as skipped |
| `XrayConfigLaws.GenerateForgetsOrder` | internal/xray/config.go:44-172 | any reordering of specs with distinct identifiers gives the same tree, hash, included list and skipped counts, or the same error |
| `XrayConfigLaws.IncludedReachTheirNode` | internal/xray/config.go:86-100 | an included identifier as user has one account, is routed to its own tag, and that tag belongs to one outbound, built from the spec with that identifier |
| `XrayConfigLaws.IncludedIffSupported` | internal/xray/config.go:62-71 | exactly the supported specs are included |
| `XrayConfigLaws.IncludedAscend` | internal/xray/config.go:77-100 | the included identifiers ascend |
| `XrayConfigLaws.OthersGoDirect` | internal/xray/config.go:102-111 | any other user is routed to the direct outbound |
| `XrayConfigLaws.ObservatoryCoversNodesIff` | internal/xray/config.go:141-161 | the n- selector chooses the node outbounds, all and no other, iff every identifier starts with n- |
| `XrayConfigLaws.ObservatoryIs` | internal/xray/config.go:141-162 | the plain observatory iff the mode, trimmed and lower-cased, says so, else the burst one; each with its own destination, intervals and options |
| `XrayConfigLaws.SecondsAreWritten` | internal/xray/config.go:371-378 | a positive number of seconds that fits a duration is written as it is, any other as its default |
| `XrayConfigLaws.SecondsOverflow` | internal/xray/config.go:371-378 | a number of seconds beyond 292 years wraps around and comes out negative |
| `XrayConfigLaws.ListensWhereTold` | internal/xray/config.go:351-369 | a listen address made of a host and a number is split into them, a number beyond 64 bits being the nearest that fits |
| `XrayConfigLaws.ListensWithoutPort` | internal/xray/config.go:351-369 | an address without a colon is all host; a missing port or one that is no number is 0 |
| `XrayConfigLaws.DeduplicatedSpecsAreRoutable` | internal/upstream/spec.go:89-100 | specs the loaders produce, deduplicated, meet what the routing and observatory laws require |
| `Counters.MergeSkipped` | internal/orchestrator/updater.go:300-308 | the merge has every key with the sum of its counts, whatever order the maps yield, and loses no count |
| `Counters.TallyCounts` | internal/xray/config.go:66-69 | the skipped map holds how often each type was skipped |
| `XrayInstance.Instance.Ensure` | internal/xray/manager.go:89-129 | the method with its failure exits changes instance and processes as the specification says |
| `XrayInstance.Instance.Stop` | internal/xray/manager.go:131-142 | kills and forgets the process and its hash, and passes on what the kill reports |
| `XrayInstance.StepsMakeEnsure` | internal/xray/manager.go:89-129 | the steps of a call compose to the call |
| `XrayInstance.StepKeeps` | internal/xray/manager.go:89-129 | between any two steps no process runs but the one the instance knows, and a returned success has the process of this hash in place |
| `XrayInstance.EnsureSucceedsIff` | internal/xray/manager.go:89-129 | Ensure succeeds iff the hash is the remembered one or directory, file, start and readiness all work out; a process is started exactly when it gets that far |
| `XrayInstance.EnsureSettles` | internal/xray/manager.go:89-129 | Ensure ends with the process of this hash in place, or with no process at all |
| `XrayInstance.RestartIffHashChanged` | internal/xray/manager.go:93-100 | the same hash changes nothing; a new hash never leaves the old process running |
| `XrayInstance.EnsuredRunsIff` | internal/xray/manager.go:93-95 | a successful Ensure leaves its process running iff it was not a repeated hash whose process had died |
| `XrayInstance.CrashedIsTakenForRunning` | internal/xray/manager.go:93-95 | after a crash, Ensure with the same hash reports success with nothing running |
| `XrayInstance.EveryRunSettles` | internal/xray/manager.go:89-142 | after any calls, stops and crashes at most one process runs, and a remembered one was started with the configuration of lastHash |
| `UpdateData.BuildXrayEntries` | internal/orchestrator/updater.go:197-210 | the loop over included identifiers and their health |
| `UpdateData.XrayEntriesKeys` | internal/orchestrator/updater.go:199-210 | the keys are exactly the included identifiers that are in the health report and alive there, each once, in entries for the node with its delay and nothing held against them |
| `UpdateData.XrayEntriesInOrder` | internal/orchestrator/updater.go:199-210 | the entries keep the order of the included list |
| `UpdateData.DrainResults` | internal/orchestrator/updater.go:269-283 | the drain loop with its seen map |
| `UpdateData.LegacyEntriesKeys` | internal/orchestrator/updater.go:272-283 | one entry per address that reported, keyed by it, with the latency of one of its reports and nothing else set |
| `UpdateData.FanOutEntries` | internal/orchestrator/updater.go:248-283 | whatever the schedule of the checks, the keys of the built entries are exactly the live addresses, each once |
| `UpdateData.LoadSOCKS5Upstreams` | internal/orchestrator/updater.go:363-403 | the add loops: each address once, in order, a failed source or an empty result being a failure |
| `UpdateData.LoadedAddressesDistinct` | internal/orchestrator/updater.go:363-403 | the loaded addresses are distinct, not none, and exactly those of the two kinds of source |
| `UpdateData.LoadFailsIff` | internal/orchestrator/updater.go:363-403 | loading addresses fails iff a source fails or there is none |
| `UpdateData.ListsComeFirst` | internal/orchestrator/updater.go:363-403 | addresses of lists come before those only typed sources have |
| `UpdateData.LoadUpstreamSpecs` | internal/orchestrator/updater.go:310-344 | specs of sources, then plain addresses, then lists, deduplicated; any failed load fails |
| `UpdateData.PlainAddressIs` | internal/orchestrator/updater.go:346-361 | a plain address is taken iff it splits into host and positive port, as the SOCKS5 node there under its own identifier |
| `UpdateData.NothingOfferedIsLost` | internal/orchestrator/updater.go:310-344 | loading specs fails iff a source fails; else the loaded identifiers are exactly those of the typed specs and of the plain addresses of sources and lists |
| `UpdateData.LoadedSpecsReady` | internal/orchestrator/updater.go:310-360 | loaded specs have distinct, non-blank n- identifiers |
| `UpdateData.GeneratedIsUsable` | internal/xray/config.go:86-100 | included identifiers of loaded specs are distinct and usable as pool keys |
| `UpdateData.EntryLeadsToItsNode` | internal/orchestrator/updater.go:197-210 | dialling the address of a pool entry with its credentials meets one account and is routed to the one outbound built from the spec the entry is named after |
| `UpdaterRuns.StepKeepsInv` | internal/orchestrator/updater.go:112-289 | every step of every caller, request, shutdown or crash keeps the invariant of the updater |
| `UpdaterRuns.AtMostOneUpdate` | internal/orchestrator/updater.go:113-117 | in every run at most one caller is inside an update, with the flag set |
| `UpdaterRuns.NeverEmptiedAgain` | internal/orchestrator/updater.go:212-216 | once the pool has entries it never becomes empty, whatever loads, generation, starts or metrics fail |
| `UpdaterRuns.AtMostOneProcess` | internal/xray/manager.go:89-142 | in every run, at every step, at most one xray process is live |
| `UpdaterRuns.RememberedProcessMatchesHash` | internal/xray/manager.go:89-142 | while nobody is in Ensure a remembered process was started with the configuration lastHash is the hash of |
| `UpdaterRuns.ReachableIndexIsBijection` | internal/orchestrator/updater.go:199-289 | in every reachable pool keys are distinct and the index is a bijection onto positions |
| `UpdaterRuns.InsideCanMove` | internal/orchestrator/updater.go:112-298 | a caller inside is never blocked |
| `UpdaterRuns.UpdateTakesThirteenSteps` | internal/orchestrator/updater.go:112-298 | an update takes at most thirteen steps of its caller, whatever others do in between |
| `UpdateOnce.Updater.RunOnce` | internal/orchestrator/updater.go:112-129 | a second caller changes nothing; the first publishes and starts what the plan says and clears the flag |
| `UpdateOnce.Updater.RunOnceXray` | internal/orchestrator/updater.go:131-233 | the xray path with its four fallbacks: with xray up and running the pool holds exactly the included nodes reported alive; failing, the live proxies if falling back is allowed; else it stays as it is |
| `UpdateOnce.Updater.RunOnceLegacy` | internal/orchestrator/updater.go:235-298 | for every order in which the check goroutines took their steps, the pool holds exactly the live proxies, each once; with none, or none loaded, it stays as it is |
| `UpdateOnce.UpdateFills` | internal/orchestrator/updater.go:112-298 | what any update leaves in the pool, by whether xray is used, is up and running, and may be fallen back from |
| `UpdateOnce.UpAndRunningIff` | internal/orchestrator/updater.go:134-193 | when that is: loads and generation succeed, metrics answer, and the process of this very configuration is remembered or was started and got ready |
| `UpdateOnce.UndisturbedUpdate` | internal/orchestrator/updater.go:112-298 | what RunOnce does is what the machine of interleaved updates does when one caller enters and leaves undisturbed |

## Left out

- HandleConnect: the request's retryable flag is fixed to true, since the CONNECT loop retries every failed dial.
- HandleLogsSSE: the class serves one client from start to end; all interleavings of clients are in SseSlots.
- RunOnce: status reporting and log lines are not modelled; how the check goroutines interleaved is a parameter, any finished run of FanOut.
- StepKeepsInv: Kill is taken to end the process even where it reports an error.
- HandleForward: what it picks, marks and answers; over which connection the HTTP client sends is in KeepAlive, where dialling, reuse, sharing and breaking of connections are any run of a machine.
- CanonicalIffSameNode: asks that no field contains what ends it; CanonicalShareIff has every case, but compares headers by their text, which HeaderTextIff resolves for headers free of the separators.
- DoubleIff: of the headers that share a text it counts those in which no two names differ in case alone.
- Networking, TLS, hijacking, tunnels, file writes, process start and readiness polling: outcomes are parameters.
- JSON and YAML, and SHA-256: hashes are function parameters, so equal trees have equal hashes and nothing is assumed about different ones.
- Basic-auth and traceparent parsing: the parsed user and trace ID are inputs of a request; the failover mode reaches the loops as whether it is soft.
- Splitting the addresses of proxies into host and port is a parameter of the loaders.
- Strings are sequences of characters: input that is not UTF-8 and lower-casing beyond ASCII are not modelled.
- The log buffer's IDs and subscription numbers are unbounded; wrap-around is modelled for the round-robin counter and the doubling of a backoff only.
- A channel is known by its subscription number; aliasing of channel values and of slices handed to Update by the caller afterwards is not modelled.
- The draws of the random strategy are parameters; no claim about their distribution is made.
- Every operation under a mutex is one step; data races outside the mutexes are not modelled.
- Configuration defaults and validation, status, the dashboard and authentication.
