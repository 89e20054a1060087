# diyddns: a verified model

diyddns is a self-hosted dynamic-DNS server: devices check in with their addresses,
gateways follow the resulting feed over WebSocket streams and webhooks, and people
manage accounts and devices. This project models the parts of it whose correctness
spans several functions, and proves what they promise with Dafny 4.11.
`dafny verify dfyconfig.toml` checks everything.

## How to read it

The SQLite store is a set of maps; one SQL statement, or one closed transaction, is
one atomic step, as the store's single connection makes it. Code that updates an
object or a table step by step is a class whose methods are proved to compute a
function on the old state; theorems are then proved about those functions. Lemmas named
for an outcome say what such a function does by its inputs and results alone. Code whose
point is what happens when calls interleave (stream handlers, sends, grants against
address changes, enrollment, sweeps of the outbox, replay) is a transition system: a
run is any sequence of steps, a step that is not enabled changes nothing, and the
main theorems hold in every reachable state.

| file | models |
|---|---|
| `Common.dfy`, `Options.dfy` | sizes, 64-bit integers, optional values |
| `Devices.dfy`, `Fanout.dfy` | device rows, address history, feed membership, the writers and the events they broadcast |
| `Hub.dfy`, `Stream.dfy`, `StreamOutcomes.dfy` | the stream hub; the whole system of writers, hub, handlers and token revocation; one stream from open to end |
| `Outcomes.dfy` | what each writer does to rows, history and stream, field by field |
| `Writers.dfy`, `Server.dfy` | laws over runs of writers; the writers as methods on tables and hub |
| `Sweep.dfy`, `Ladder.dfy` | one staleness sweep; its pinned writes when ticks and check-ins overlap |
| `Retention.dfy` | batched history pruning with two policies |
| `Cursor.dfy`, `Paging.dfy` | page cursors and the keyset walk |
| `Grants.dfy`, `Accounts.dfy` | registration links against address changes; addresses of accounts |
| `Mailer.dfy` | bounded sends that a caller may abandon |
| `DeviceFlow.dfy` | device-code enrollment (RFC 8628), client loop against server |
| `Enrollment.dfy` | single-use enrollment codes |
| `Outbox.dfy` | webhook deliveries, retries and their delay |
| `Replay.dfy` | request signatures and the replay table |
| `Quorum.dfy` | the public-address vote |

## Where the code does less than a reader may expect

Each of these is proved with a concrete run or row, next to the exact condition under
which the promised property does hold.

- An expiry decided on a candidate read earlier is announced with that candidate's
  addresses. If the device leaves the feed in between, while one family is not due, the
  last event names an address the feed does not have
  (`Writers.ExpiryAnnouncedIff`, `Writers.DisableDuringSweepIsNotAnnounced`).
- A rung can be warned twice for one confirmation instant when sweep ticks overlap,
  because the ladder write does not ask whether the address is still held
  (`Ladder.OverlappingTicksCanRepeat`): exactly when an advance lands on a family that
  was cleared since it was read, and its warning was already sent
  (`Ladder.OverlapRepeatsIff`). Ticks do not overlap today: `runPruner`
  (internal/server/pruner.go:38-53) runs them one after another in one goroutine, and
  then no rung repeats (`Ladder.RungsWarnOnce`). What fails is the comment at
  internal/store/devices.go:453-459, which says two overlapping ticks cannot advance a
  level twice.
- Which rows SQLite picks for a batch can decide which rows retention keeps
  (`Retention.LateClockIsExposed`, for every batch size). For a given batch size this
  is so exactly when some row is a victim of the cap alone and enough rows above it can
  go, in full batches, while it waits (`Retention.BatchConfluentIff`); never when
  everything goes in one batch (`Retention.OneBatchIsExact`). The pruner's batch is 5000.
- OIDC signup looks for the exact canonical address, so it can create a second account
  on one mailbox beside a case variant (`Accounts.LoginKeepsSoundIff`,
  `Accounts.SignupCanSplitAMailbox`); first-run setup has the same condition
  (`Accounts.NewRowKeepsSoundIff`).
- A verification that stalls between reading the clock and inserting its nonce can
  accept a signature a second time after the first record was pruned
  (`Replay.LateInsertIsAcceptedTwice`); the lifetime of a nonce must cover the skew
  window and the longest stall, and that suffices (`Replay.AcceptedAtMostOnceIff`).
- A link of the paths that read the recipient before the mint can stay live at an
  address that is no longer the account's (`Grants.EarlyLinkCanGoStale`). It stays
  current, whatever follows, exactly when the address read still speaks for the account
  at the mint (`Grants.EarlyLinkStaysCurrentIff`), which a second read there would tell.
- The 64-bit skew test wraps around at the very end of time (`Hmac.SkewWrapsAtTheEnd`):
  it is exact for every timestamp exactly while the clock plus the skew fits
  (`Hmac.SkewIsExactIff`). The delay between attempts wraps at attempt 32
  (`Backoff.DelayWrapsAt32`), so delays stay within their bounds exactly for limits up
  to 31 (`Backoff.DelaysStayInBoundsIff`). Both are out of reach of the configured ranges.

The repository's comment on the outbox says the delay overflows "far beyond 16"
attempts; the model shows the first one is 32.

## Model

| member | source | states |
|---|---|---|
| `Outcomes.FeedListsMembers` | internal/store/devices.go:494-503 | the feed query and the membership test agree: a device is listed exactly if it and its account are enabled and it holds an address, with the addresses it holds |
| `Outcomes.CheckInOutcome` | internal/server/service/checkin.go:84-157 | each reported address is the row's address afterwards, confirmed now, at level 0; an omitted one keeps address, instant and level; a change of either is one history row and one event with the new pair, no change is neither |
| `Outcomes.ExpiryOutcome` | internal/server/fanout.go:115-156 | an expiry happens exactly while the row has the instants read and a due family holds an address; then the due families are empty and the rest stays; one history row and one event |
| `Outcomes.AdvanceOutcome` | internal/store/devices.go:460-481 | the ladder write happens exactly on the pinned instants and level, and changes that family's level alone |
| `Outcomes.SetEnabledOutcome` | internal/server/service/device.go:128-148 | the flag of that row becomes the one asked for and nothing else of the tables changes |
| `Outcomes.RemoveOutcome` | internal/server/service/device.go:153-170 | the row and exactly its history are gone |
| `Outcomes.SetUserDisabledOutcome` | internal/server/service/admin.go:241-271 | the account's flag becomes the one asked for and nothing else of the tables changes |
| `Outcomes.RemoveUserOutcome` | internal/server/service/admin.go:277-300 | the account, exactly its devices, and exactly their history are gone |
| `Outcomes.EventsTellTheirChange` | internal/server/notify/payload.go:88-139 | every event of every writer carries the device's feed entry before and after; it is ip_changed for check-ins and expiries, else added exactly when the device joins and removed exactly when it leaves |
| `Outcomes.FlipsAreNumbered` | internal/server/fanout.go:65-99 | membership events take the next sequence numbers in order |
| `Outcomes.CreationOutcome` | internal/store/devices.go:494-503 | a new device is enabled, without addresses and not in the feed; a new account is enabled |
| `StreamOutcomes.StreamOpens` | internal/server/feed/stream.go:38-139 | a live token below the cap opens a stream: in the map, empty buffer, the feed as it stands for a snapshot |
| `StreamOutcomes.StreamIsRefused` | internal/server/feed/stream.go:38-108 | a full or closing hub, a token gone by the second look, and a store failure there end the handler before it sends |
| `StreamOutcomes.DispatchOutcome` | internal/server/feed/hub.go:148-163 | the next payload in line goes last into every buffer in the map with room, and the full ones are to be evicted |
| `StreamOutcomes.PumpOutcome` | internal/server/feed/stream.go:216-228 | the pump takes payloads from the front; a failed write ends it as gone |
| `StreamOutcomes.EvictOutcome` | internal/server/feed/hub.go:157-163 | each subscriber to evict is cancelled as slow and leaves the map |
| `StreamOutcomes.PeerLostOutcome` | internal/server/feed/stream.go:146-183 | a peer that goes away cancels its stream once the connection is open |
| `StreamOutcomes.RevocationEndsStream` | internal/server/service/feed.go:185-198 | a revocation cancels an open stream of its token, which ends and leaves the map |
| `Streams.StreamsConverge` | internal/server/feed/stream.go:38-139 | in every reachable state of writers, hub, handlers and revocations, replaying what a healthy pump has received and what is unsent over its snapshot gives exactly the feed map, whenever the snapshot was read |
| `Streams.DeliveryHasNoGap` | internal/server/feed/hub.go:114-163 | what a subscriber received is a contiguous run of the broadcasts since it subscribed; one that missed a payload is cancelled or over and out of the map before the next broadcast; never more than 32 live |
| `Streams.RevocationIsComplete` | internal/server/service/feed.go:185-198 | once a revocation has returned, every handler of the token has not passed its re-check and will be refused, or is over, or is cancelled |
| `Streams.RunKeepsInv` | internal/server/feed/stream.go:38-228 | log accuracy, gap-free buffers, liveness, current snapshots and revocation tracking hold after any interleaving |
| `Streams.StepKeepsInv` | internal/server/feed/stream.go:38-228 | each single step, of a writer, the hub, a handler or a revocation, keeps those invariants |
| `Streams.ReplayReachesFeed` | internal/server/feed/stream.go:186-228 | events older than the snapshot do no harm: the last word about each device wins |
| `Hubs.Hub.constructor` | internal/server/feed/hub.go:105-108 | an empty hub that admits |
| `Hubs.Hub.Subscribe` | internal/server/feed/hub.go:114-128 | admits exactly below 32 and before shutdown, with an empty buffer; refuses as shutting down first, else as too many connections |
| `Hubs.Hub.Unsubscribe` | internal/server/feed/hub.go:133-140 | removes the subscriber and nothing else |
| `Hubs.Hub.Offer` | internal/server/feed/hub.go:148-156 | every subscriber with room receives the payload last; the full ones are collected |
| `Hubs.Hub.EvictEach` | internal/server/feed/hub.go:157-163 | each collected subscriber is cancelled once as a slow consumer and leaves the map |
| `Hubs.Hub.Broadcast` | internal/server/feed/hub.go:148-163 | push and eviction in one, keeping the connection cap and the buffer bound |
| `Hubs.Hub.CloseToken` | internal/server/feed/hub.go:167-179 | cancels exactly the live subscribers of the token, keeping any earlier cause |
| `Hubs.Hub.Shutdown` | internal/server/feed/hub.go:185-201 | cancels every subscriber that has no cause yet and refuses later ones |
| `HubSections.BroadcastOutcome` | internal/server/feed/hub.go:148-163 | for each subscriber: in the map with room it receives the payload last; full, it is out and cancelled as slow; otherwise nothing |
| `HubSections.ShutdownOutcome` | internal/server/feed/hub.go:185-201 | every subscriber without a cause is cancelled as shutting down, and none is admitted after |
| `HubSections.CloseTokenOutcome` | internal/server/feed/hub.go:167-179 | exactly the subscribers of the token in the map are cancelled as revoked; an earlier cause stays |
| `HubSections.SubscribeOutcome` | internal/server/feed/hub.go:114-128 | below 32 and before a shutdown, in the map with an empty buffer; otherwise no change |
| `HubSections.BroadcastKeepsSound` | internal/server/feed/hub.go:148-163 | a whole broadcast keeps at most 32 live and 64 buffered |
| `Fanout.WriterIsAnnounced` | internal/server/fanout.go:45-156 | the last word a writer's events say about a device is its new feed entry, and only named devices changed |
| `Fanout.CheckInIsAnnounced` | internal/server/service/checkin.go:84-157 | the events of a check-in, one or none, announce exactly the change it makes to the feed |
| `Fanout.ExpiryIsAnnounced` | internal/server/fanout.go:115-156 | an expiry on the row as it stands announces exactly the change it makes to the feed |
| `Fanout.DeviceFlipIsAnnounced` | internal/server/service/device.go:128-170 | the events of enabling, disabling or deleting a device announce exactly the change it makes to the feed |
| `Fanout.UserFlipIsAnnounced` | internal/server/service/admin.go:241-271 | the events of disabling or enabling an account, one for each of its devices that flips, announce exactly the change of the feed |
| `Fanout.UserRemovalIsAnnounced` | internal/server/service/admin.go:277-300 | the events of deleting an account announce exactly the change of the feed |
| `Fanout.FlipsLastWord` | internal/server/service/admin.go:267-298 | of a list of flips only a listed device whose membership changed is named, with its absolute addresses |
| `Fanout.ReplayKeepsLastWord` | internal/server/notify/payload.go:88-139 | applying absolute events gives every device the last word about it |
| `Fanout.WriterKeepsStored` | internal/store/devices.go:438-451 | foreign keys and issued ids stay sound under every writer |
| `Writers.RowAndHistoryAgree` | internal/store/checkin.go:47-78 | over every run of writers a device's highest-id history row is its current address pair |
| `Writers.AppendedRowDiffers` | internal/server/service/checkin.go:84-136 | each appended history row differs from the one before it, and a first row carries an address |
| `Writers.EventKeysAreDistinct` | internal/store/feed_state.go:29-38 | no two broadcasts of a run share (kind, id), the key consumers deduplicate on |
| `Writers.ExpiryAnnouncedIff` | internal/server/fanout.go:115-156 | exactly when an expiry on an older candidate is announced |
| `Writers.DisableDuringSweepIsNotAnnounced` | internal/server/fanout.go:115-156 | the concrete run in which it is not |
| `Server.DeviceServer.constructor` | internal/server/fanout.go:38-40 | empty tables and the given hub |
| `Server.DeviceServer.Bump` | internal/store/feed_state.go:29-38 | the next feed sequence number |
| `Server.DeviceServer.AppendHistory` | internal/store/ip_history.go:97-119 | one row under the next id |
| `Server.DeviceServer.Checkin` | internal/server/service/checkin.go:84-157 | refuses an unknown device and changes nothing; else merges, touches or records, and broadcasts, exactly as the writer function says, and reports whether the pair changed |
| `Server.DeviceServer.CheckinFound` | internal/server/service/checkin.go:90-157 | the check-in of a known device |
| `Server.DeviceServer.Dispatch` | internal/server/fanout.go:160-165 | the hub receives the event |
| `Server.DeviceServer.ExpireAddresses` | internal/store/devices.go:548-617 | clears exactly the due families of a row still pinned on the instants read, with its history row and event |
| `Server.DeviceServer.EmitMembership` | internal/server/service/feed.go:49-57 | one numbered event for a flip, none otherwise |
| `Server.DeviceServer.SetEnabled` | internal/server/service/device.go:128-148 | refuses a device that is missing or not the actor's and changes nothing; else the row and the flip of its membership |
| `Server.DeviceServer.FlipDisabled` | internal/server/service/feed.go:77-88 | one device flips: its row, and one event exactly if its membership changes |
| `Server.DeviceServer.Delete` | internal/server/service/device.go:153-170 | refuses a device that is missing or not the actor's and changes nothing; else the row and its history are gone and a member is told as removed |
| `Server.DeviceServer.DeleteFound` | internal/server/service/device.go:153-170 | the deletion of the actor's own device |
| `Server.DeviceServer.ListByUser` | internal/store/devices.go:224-246 | every device of the account once |
| `Server.DeviceServer.EmitFlips` | internal/server/service/admin.go:267-298 | one event per listed device that flips, numbered in order |
| `Server.DeviceServer.ApplyDisabled` | internal/server/service/admin.go:241-271 | the account flag and the flips of all its devices |
| `Server.DeviceServer.DeleteUser` | internal/server/service/admin.go:277-300 | the cascade and the removal of every member |
| `Server.DeviceServer.AdvanceWarnLevel` | internal/store/devices.go:460-481 | moves the level only from the pinned level and instants |
| `Server.DeviceServer.Warn` | internal/server/sweep.go:243-281 | at most one rung per family, the highest due |
| `Server.DeviceServer.Act` | internal/server/sweep.go:202-216 | expiry before rungs, on the candidate as read |
| `Server.DeviceServer.Candidates` | internal/server/sweep.go:134-163 | exactly the feed members with a family past its first rung, once each |
| `Server.DeviceServer.Run` | internal/server/sweep.go:173-194 | a tick: every candidate acted on in order |
| `Sweep.RungsAreInsideWindow` | internal/server/stale/window.go:47-54 | four rungs in order strictly inside the window; the due rung is the number reached |
| `Sweep.RungsScale` | internal/server/stale/window.go:33-54 | the rungs are days 7, 14, 17 and 20 of 21 in proportion to the window, rounded down |
| `Sweep.TickOutcome` | internal/server/sweep.go:132-281 | a tick for every device: one not entitled to the feed stays; of another the addresses a window old are cleared, and if none is, each held address reaches the level of its due rung |
| `Sweep.CandidateIff` | internal/server/sweep.go:134-163 | a candidate is an enabled device of an enabled account with an address a third of the window old |
| `Sweep.ComputeDueRung` | internal/server/stale/window.go:78-86 | the loop computes the due rung |
| `Sweep.SweepIsExact` | internal/server/sweep.go:132-281 | after an uninterrupted tick every address of a feed member was asserted less than a window ago, nothing asserted more recently was cleared, and no instant moved |
| `Sweep.TickIsAnnounced` | internal/server/sweep.go:173-194 | the events of a tick tell every feed change it makes |
| `Ladder.OnlyStaleAddressesAreCleared` | internal/store/devices.go:548-595 | however ticks and check-ins overlap, an address is cleared only a window after it was last asserted |
| `Ladder.HeldAdvancesNeverRepeat` | internal/store/devices.go:460-481 | in particular no rung repeats while every landing advance finds the address held; one way only, since an advance on a cleared address may say something new |
| `Ladder.OverlapRepeatsIff` | internal/store/devices.go:453-481 | however ticks and check-ins overlap, no rung repeats for one instant if and only if every advance that lands on a cleared address sends a warning not sent before |
| `Ladder.RungsWarnOnce` | internal/server/sweep.go:243-281 | each rung once per family and instant when ticks run one after another |
| `Ladder.OverlappingTicksCanRepeat` | internal/server/sweep.go:243-281 | three overlapping ticks that warn one rung twice |
| `Retention.RetainedIff` | internal/store/ip_history.go:224-263 | one DELETE keeps the newest row, and the rows young enough with fewer than the cap above them |
| `Retention.DrainIsConfluent` | internal/store/ip_history.go:224-263 | unless a row is crowded, every choice of rows in every batch of any size drains to what one unlimited DELETE keeps |
| `Retention.OrderedRowsAreNotCrowded` | internal/store/ip_history.go:224-263 | no row is crowded when observed_at does not decrease with the id |
| `Retention.BatchConfluentIff` | internal/store/ip_history.go:224-263 | for each batch size, the choice of rows is invisible if and only if no victim of the cap alone can be rescued: enough victims above it to bring it within the cap, in full batches that leave a victim over |
| `Retention.OneBatchIsExact` | internal/server/pruner.go:155-189 | a device whose victims fit into one batch is never exposed to that choice |
| `Retention.CrowdedIff` | internal/store/ip_history.go:224-263 | a row is crowded exactly when some row can be rescued at batch size 1; at any batch size a row to rescue means a crowded one |
| `Retention.ConfluentIff` | internal/store/ip_history.go:224-263 | the choice of rows is invisible at every batch size if and only if no row is crowded |
| `Retention.LateClockIsExposed` | internal/server/pruner.go:155-189 | for every batch size, the 5000 of the pruner included, a table and two drains of it, one of which keeps a row the other deletes |
| `Retention.DisabledAgeIsSentinel` | internal/server/pruner.go:155-189 | the smallest int64 leaves the cap alone to decide; the current time keeps only the newest row |
| `Retention.VictimsSpareNewest` | internal/store/ip_history.go:224-263 | retention never takes a device's highest-id row |
| `Retention.IPHistory.constructor` | internal/store/ip_history.go:33-33 | the table as given |
| `Retention.IPHistory.Prune` | internal/store/ip_history.go:224-263 | deletes some batch of victims and reports how many |
| `Retention.IPHistory.Drain` | internal/server/pruner.go:155-189 | terminates, reports exactly the rows removed, all of them victims, and leaves what one DELETE would unless a statement failed or a row can be rescued at this batch size |
| `Retention.IPHistory.PruneAll` | internal/server/pruner.go:155-189 | the same for every device, touching no other device's rows |
| `Cursor.CursorRoundTrip` | internal/store/ip_history.go:60-87 | decoding undoes encoding exactly for the int64 pairs, and an encoded cursor is never empty |
| `Cursor.DecodedIsInt64` | internal/store/ip_history.go:66-87 | whatever text decodes, decodes to int64 values that an encoded cursor also stands for |
| `Cursor.Base64RoundTrip` | internal/store/audit_log.go:76-103 | base64 decoding undoes encoding for every byte string |
| `Cursor.AlphabetRuns` | internal/store/ip_history.go:60-87 | letters, digits, plus and slash, in the order of RFC 4648 section 4 |
| `Cursor.QuantumSpellsNumber` | internal/store/ip_history.go:60-87 | four characters are the number of three octets to the base of 64, with padding for what is missing |
| `Cursor.CursorText` | internal/store/ip_history.go:60-63 | the text in a cursor is time, colon, id, in decimal |
| `Cursor.DigitsAreDecimal` | internal/store/ip_history.go:60-63 | the k-th digit from the right counts the k-th power of ten |
| `Cursor.SignedText` | internal/auth/hmac.go:120-123 | a sign is optional, and a number out of range or missing is an error |
| `Cursor.IntRoundTrip` | internal/store/audit_log.go:82-103 | parsing undoes formatting exactly for int64 values |
| `Paging.Select` | internal/store/ip_history.go:182-195 | the newest rows behind the cursor, newest first, as many as the limit |
| `Paging.PageFrom` | internal/store/ip_history.go:145-204 | a page and the cursor of the next one, present exactly when the page is full |
| `Paging.HistoryPage` | internal/store/ip_history.go:145-204 | one device's rows, 50 when the limit is unset and at most 500, an error exactly for an undecodable cursor; a row of the device after the cursor is missing only from a full page |
| `Paging.AuditPage` | internal/store/audit_log.go:139-210 | the rows that pass every filter that is set, 100 when the limit is unset and at most 500; one after the cursor is missing only from a full page |
| `Paging.PageShowsNewest` | internal/store/ip_history.go:145-204 | times fall along a page, and ids within a time; a page after a cursor shows later positions only; what it leaves off comes later still, and then the page is full |
| `Paging.PageIsDetermined` | internal/store/ip_history.go:145-204 | rows, cursor and limit determine the page |
| `Paging.WalkReadsWhatStays` | internal/store/ip_history.go:145-204 | following cursors reads in descending order, no row twice, and every row that stays, whatever happens to the table between pages |
| `Paging.WalkGoesBackInTime` | internal/store/ip_history.go:145-204 | over a whole walk times never increase, and ids fall within a time |
| `Paging.WalkIsComplete` | internal/store/ip_history.go:145-204 | while only newer rows arrive, a finished walk has read exactly the rows that matched when it started |
| `Paging.WalkTerminates` | internal/store/audit_log.go:139-210 | such a walk ends, on the least number of pages that leaves the last one short |
| `GrantOutcomes.RedeemOutcome` | internal/server/service/grants.go:813-872 | a link is redeemed exactly while it is unused and unexpired, and is then used |
| `GrantOutcomes.TableOutcome` | internal/store/account_recovery.go:94-154 | which rows the statements mark, prune and delete |
| `GrantOutcomes.FailOutcome` | internal/server/service/grants.go:356-422 | an operation that fails leaves the rows and lets go of the lock; a saved change cannot |
| `GrantOutcomes.IssueDelivers` | internal/server/service/grants.go:356-422 | an undisturbed reissue leaves no other unused link of the account, a new one with its expiry, and mails it to the account's address; to nobody if the account is disabled |
| `GrantOutcomes.EarlyDelivers` | internal/server/service/grants.go:562-605 | an undisturbed invitation or recovery adds a link, leaves the others, and mails it to the address |
| `GrantOutcomes.ChangeDelivers` | internal/server/service/email_change.go:269-278 | an undisturbed change leaves the new address and no unused link |
| `GrantTable.AccountRecovery.Create` | internal/store/account_recovery.go:52-69 | inserts unless the hash exists |
| `GrantTable.AccountRecovery.Consume` | internal/store/account_recovery.go:94-114 | marks a row used exactly when it is unused and unexpired |
| `GrantTable.AccountRecovery.PruneExpired` | internal/store/account_recovery.go:121-134 | removes exactly the expired rows and counts them |
| `GrantTable.AccountRecovery.DeleteUnusedByUser` | internal/store/account_recovery.go:142-154 | removes exactly the account's unused rows and counts them |
| `Grants.LiveLinksAreCurrent` | internal/server/service/grants.go:356-422 | over every interleaving, while no change of the account is between its save and its delete, each unused link of the two replacing paths went to the current address, and there is at most one |
| `Grants.RedeemedAtMostOnce` | internal/server/service/grants.go:813-872 | no grant is redeemed twice |
| `Grants.OneLiveStep` | internal/server/service/grants.go:470-519 | every step keeps at most one live tracked link per account, and none while one is being replaced |
| `Grants.AddressedStep` | internal/server/service/email_change.go:269-278 | every step keeps: where a live tracked link was or will be mailed speaks for its account, unless a change is between its save and its delete |
| `Grants.EarlyLinkCanGoStale` | internal/server/service/grants.go:562-605 | the run in which a link mailed to the address read before the mint stays live at the old address |
| `Grants.EarlyLinkStaysCurrentIff` | internal/server/service/grants.go:562-605 | after a mint of a path that read its recipient before, every continuation keeps the unused link at the account's current address whenever no change is in flight, if and only if at the mint the address read speaks for the account |
| `AccountOutcomes.FoldIgnoresAsciiCase` | internal/server/service/email_change.go:90-103 | two addresses are equal ignoring case exactly if they differ at most in the case of ASCII letters |
| `AccountOutcomes.UniqueMeans` | internal/server/service/email_change.go:90-138 | what uniqueness says of two accounts: canonical addresses and unexpired changes all differ |
| `AccountOutcomes.RequestOutcome` | internal/server/service/email_change.go:168-229 | which guard refuses a request, and what one that passes stages: the canonical address, the token, and an hour |
| `AccountOutcomes.RequestThenConfirm` | internal/server/service/email_change.go:168-303 | a requested change is confirmed by its token within the hour, and by nothing else |
| `AccountOutcomes.ConfirmOutcome` | internal/server/service/email_change.go:287-303 | which guard refuses a confirmation, and that one that passes writes the pending address and drops what was pending |
| `AccountOutcomes.CancelOutcome` | internal/server/service/email_change.go:234-246 | cancelling drops what is pending and nothing else |
| `AccountOutcomes.SetEmailOutcome` | internal/store/users.go:501-520 | the address is written and what was pending dropped, unless another row has exactly that address |
| `AccountOutcomes.DirectWriteOutcome` | internal/server/service/email_change.go:313-389 | which guard refuses an administrator's write, and that a login's write is the same one |
| `AccountOutcomes.InviteOutcome` | internal/server/service/admin.go:111-157 | an invite creates an unlinked row for an address nobody holds, and is refused otherwise |
| `AccountOutcomes.ClaimOutcome` | internal/server/service/bootstrap.go:276-326 | first-run setup creates an administrator unless the exact address is taken |
| `AccountOutcomes.LoginLinks` | internal/server/service/oidc.go:66-157 | a login links the account on its address unless linking is off or the account is an administrator's or linked |
| `AccountOutcomes.LoginSignsUp` | internal/server/service/oidc.go:142-200 | a login that finds no account signs up if allowed, never as an administrator |
| `AccountOutcomes.ClearExpiredOutcome` | internal/store/users.go:527-542 | exactly the changes whose time has passed are dropped |
| `AccountRuns.AddressesStayUnique` | internal/server/service/email_change.go:90-138 | over every serial run with a clock that does not go back, no two rows hold one address ignoring case, pending changes that have not expired included |
| `AccountRuns.UnexpiredChangesConfirm` | internal/store/users.go:473-492 | after such a run an unexpired change confirms and the account has the address it asked for |
| `AccountRuns.OpKeepsSound` | internal/server/service/email_change.go:168-389 | each operation keeps addresses unique |
| `Accounts.RequestKeepsSound` | internal/server/service/email_change.go:168-229 | staging or rolling back a change keeps addresses unique |
| `Accounts.ConfirmNeverConflicts` | internal/server/service/email_change.go:287-303 | a confirmation succeeds exactly for an unlinked account with an unexpired change and its token, and never conflicts |
| `Accounts.SetEmailKeepsSound` | internal/store/users.go:501-520 | a direct write of an address nobody holds succeeds and keeps addresses unique |
| `Accounts.NewRowKeepsSoundIff` | internal/server/service/bootstrap.go:276-326 | creating a row keeps addresses unique exactly when nobody held its address |
| `Accounts.LoginKeepsSoundIff` | internal/server/service/oidc.go:66-200 | a login of an unlinked identity keeps addresses unique unless it signs up beside a variant |
| `Accounts.SignupCanSplitAMailbox` | internal/server/service/oidc.go:142-157 | a signup that creates a second account on one mailbox |
| `Accounts.PruneKeepsSound` | internal/store/users.go:527-542 | clearing expired changes keeps addresses unique |
| `AccountServices.AccountService.AddressHeld` | internal/server/service/email_change.go:90-103 | the scan finds a holder exactly when another row holds the address |
| `AccountServices.AccountService.Request` | internal/server/service/email_change.go:168-229 | the guards in order, the staged change, and its rollback when the mail fails |
| `AccountServices.AccountService.Cancel` | internal/server/service/email_change.go:234-246 | clears a pending change, if any |
| `AccountServices.AccountService.Confirm` | internal/server/service/email_change.go:287-303 | applies the change in one conditional write |
| `AccountServices.AccountService.SetEmail` | internal/store/users.go:501-520 | writes the address unless the row is unknown or the exact index refuses |
| `AccountServices.AccountService.AdminSet` | internal/server/service/email_change.go:313-336 | validates, compares, checks and writes |
| `AccountServices.AccountService.SyncFromIDP` | internal/server/service/email_change.go:352-389 | writes the claim or leaves the row as it was |
| `AccountServices.AccountService.Invite` | internal/server/service/admin.go:111-157 | creates a row only for an address nobody holds |
| `AccountServices.AccountService.ClearExpired` | internal/store/users.go:527-542 | clears exactly the expired changes and counts them |
| `Mailer.OutcomeIsNeverLost` | internal/email/apprise.go:139-234 | when caller and goroutine have finished, the transport's outcome was returned or logged as late, and nothing else was |
| `Mailer.SlotsCountConversations` | internal/email/apprise.go:128-148 | reserved slots are exactly the goroutines that have not released theirs, at most 32, every open conversation among them; a visible outcome leaves its slot free |
| `Mailer.SaturatedOnlyWhenFull` | internal/email/apprise.go:128-137 | a send is refused as saturated only while 32 goroutines hold a slot |
| `Mailer.StartOutcome` | internal/email/apprise.go:105-137 | a mail that cannot be sent is refused, one that can starts exactly below 32, and no other call changes |
| `Mailer.SendReports` | internal/email/apprise.go:139-200 | a send whose transport returns in time reports what it said and gives the slot back |
| `Mailer.DeadlineReturns` | internal/email/apprise.go:178-234 | at its deadline the caller leaves in three steps of its own, with the outcome exactly when it was published |
| `Mailer.GoroutineEnds` | internal/email/apprise.go:139-175 | the goroutine never blocks and gives its slot back |
| `Mailer.RunKeepsInv` | internal/email/apprise.go:105-234 | the per-call protocol and the slot count hold after any interleaving |
| `DeviceFlow.DeviceCodeEnroll` | internal/client/enroll/oidc.go:38-88 | against this server and in any weather: the client's interval starts at five seconds or more, grows by five exactly on slow_down and bad gateways, is never below the flow's, and is waited out unless the deadline comes first; only such a cut-short poll can be paced, at most 2 + ExpiresIn/5 polls, and it gives up exactly after three bad gateways in a row |
| `DeviceFlow.PollOnce` | internal/client/enroll/oidc.go:57-80 | one turn of that loop: the poll, and the two counters after each answer |
| `DeviceFlow.PollsKeepTheirDistance` | internal/store/oidc_device_flows.go:78-103 | after an allowed poll the next is allowed exactly an interval later |
| `DeviceFlow.GateOutcome` | internal/store/oidc_device_flows.go:78-103 | not found, too early, or allowed and stamped, by the row and the clock alone |
| `DeviceFlow.SendPoll` | internal/client/enroll/oidc.go:57-80 | one request in any weather: what it can do to the stored interval and stamp, and that a paced answer came too early |
| `DeviceFlow.DeviceFlows.Start` | internal/server/api/enroll_oidc.go:64-102 | a flow with at least the minimum interval and no poll yet |
| `DeviceFlow.DeviceFlows.TryPoll` | internal/store/oidc_device_flows.go:78-103 | allowed, paced or gone, stamping the row only when allowed |
| `DeviceFlow.DeviceFlows.BumpInterval` | internal/store/oidc_device_flows.go:107-114 | raises the stored interval |
| `DeviceFlow.DeviceFlows.PruneExpired` | internal/store/oidc_device_flows.go:125-135 | drops exactly the expired flows and counts them |
| `DeviceFlow.DeviceFlows.Poll` | internal/server/api/enroll_oidc.go:107-172 | the answer for each gate and provider reply; every terminal reply deletes the flow |
| `Enrollment.OneDevicePerCode` | internal/server/service/enrollment.go:146-226 | with no redeem in flight the surviving devices of a code are none or exactly the one its row names, and an unused code has none |
| `Enrollment.FreshCodeEnrols` | internal/server/service/enrollment.go:146-226 | a usable code and a free label: the undisturbed redeem succeeds, its device has the code's account and label, and the row names it |
| `Enrollment.MintOutcome` | internal/store/enrollment_codes.go:54-72 | a new code is usable until it expires |
| `Enrollment.OtherDevicesOutcome` | internal/server/service/enrollment.go:146-226 | other enrolments and renames happen unless the account has that label |
| `Enrollment.RereadOutcome` | internal/server/service/enrollment.go:146-226 | the second look reports the device while the row is there, else the device is taken back |
| `Enrollment.SpentCodeIsRefused` | internal/server/service/enrollment.go:146-226 | an unknown, used or expired code is refused before a device is made |
| `Enrollment.LoserLeavesNoDevice` | internal/server/service/enrollment.go:146-226 | a redeem that finds the code spent after creating its device reports so and leaves no device |
| `Enrollment.ClashOutcome` | internal/server/service/enrollment.go:146-226 | a taken label is a conflict unless the code was spent meanwhile |
| `Enrollment.TableOutcome` | internal/store/enrollment_codes.go:94-134 | which rows the statements mark, prune and forget |
| `Enrollment.OneSuccessPerCode` | internal/store/enrollment_codes.go:94-114 | at most one redeem of a code reports success |
| `Enrollment.RunKeepsInv` | internal/server/service/enrollment.go:146-226 | who answers for which device, and who won which code, after any interleaving |
| `EnrollmentCodes.CodeTable.Create` | internal/store/enrollment_codes.go:54-72 | inserts unless the code exists |
| `EnrollmentCodes.CodeTable.Consume` | internal/store/enrollment_codes.go:94-107 | marks an unused, unexpired code and names the device, else changes nothing |
| `EnrollmentCodes.CodeTable.PruneExpired` | internal/store/enrollment_codes.go:121-134 | drops exactly the expired codes and counts them |
| `Outbox.OutboxStaysSound` | internal/server/notify/worker.go:145-204 | in every reachable state a row is pending exactly when an attempt is scheduled, with attempts below its limit, else at most the limit (1 for tests) |
| `Outbox.AttemptOutcome` | internal/server/notify/worker.go:145-204 | delivered exactly on success, failed exactly on a 410 or the last attempt, else scheduled again; the failure and one more attempt recorded, nothing else changed |
| `Outbox.TerminalRowsWereAttempted` | internal/server/notify/worker.go:128-204 | over every run a row that came to be delivered had a successful attempt of its own, and one that came to be failed an unsuccessful one |
| `Outbox.InsertOutcome` | internal/store/notifications.go:380-420 | what an event, a test and a redelivery insert, and when they insert nothing |
| `Outbox.EndpointOutcome` | internal/store/notifications.go:314-352 | switching an endpoint writes its flag; dropping it takes exactly its rows |
| `Outbox.SelectionOutcome` | internal/store/notifications.go:314-352 | a sweep selects pending rows whose time has come, of enabled endpoints, longest due first; it leaves a due row only when full of rows due no later |
| `Outbox.TerminalRowsRest` | internal/store/notifications.go:360-371 | a terminal row is never attempted or altered; only retention and its endpoint's deletion remove it |
| `Outbox.PendingRowsAreOwed` | internal/store/notifications.go:483-493 | a pending row changes only by its own attempt and leaves only with its endpoint |
| `Outbox.RedeliveryAddsACopy` | internal/store/notifications.go:405-420 | a redelivery adds one fresh pending copy and changes nothing else; refused exactly for a pending source or a disabled endpoint |
| `Outbox.RetriesAreSpaced` | internal/server/notify/worker.go:190-197 | a retry is 13 to 960 seconds ahead |
| `OutboxWorker.SweepIsARun` | internal/server/notify/worker.go:128-140 | a sweep, from selecting its batch to its last attempt, is a run of the outbox |
| `OutboxWorker.AttemptsAreARun` | internal/server/notify/worker.go:134-139 | so are the attempts over any selected batch, from any row on |
| `OutboxWorker.Worker.Enqueue` | internal/server/notify/enqueue.go:32-54 | one pending row for every endpoint enabled now |
| `OutboxWorker.Worker.InsertUserTest` | internal/store/notifications.go:380-397 | a test row exactly for an enabled endpoint |
| `OutboxWorker.Worker.InsertRedelivery` | internal/store/notifications.go:405-420 | the copy, exactly when allowed |
| `OutboxWorker.Worker.Prune` | internal/store/notifications.go:483-493 | deletes old terminal rows, a full batch or all of them if they are fewer, and counts them |
| `OutboxWorker.Worker.DueForAttempt` | internal/store/notifications.go:314-352 | the due rows of enabled endpoints, oldest first, up to the limit |
| `OutboxWorker.Worker.DeliverOne` | internal/server/notify/worker.go:145-204 | the row after the attempt, unless the write is lost |
| `OutboxWorker.Worker.Sweep` | internal/server/notify/worker.go:128-140 | the selected rows attempted in order until a shutdown |
| `Backoff.DelayBounds` | internal/server/notify/worker.go:332-341 | for every attempt from 2 to 31 and every draw the delay lies between 13.5 seconds and 16 minutes |
| `Backoff.DelayIsDoubled` | internal/server/notify/worker.go:332-341 | it is 15 seconds doubled for every retry before, jittered, without the fraction of a nanosecond, and at most the maximum |
| `Backoff.DelayGrows` | internal/server/notify/worker.go:332-341 | it never decreases from one attempt to the next, whatever the draws |
| `Backoff.DelayWrapsAt32` | internal/server/notify/worker.go:332-341 | the delay before attempt 32 wraps around and is negative for every draw |
| `Backoff.DelaysStayInBoundsIff` | internal/server/notify/worker.go:332-341 | all delays up to a limit of attempts stay within those bounds for every draw, if and only if the limit is at most 31 |
| `Replay.AcceptedAtMostOnceIff` | internal/auth/hmac.go:120-149 | no signature is accepted twice, if and only if a nonce outlives the skew window by the longest stall of a verification |
| `Replay.ConfigurationSuffices` | internal/config/config.go:382-386 | the configured comparison of untruncated durations suffices for verifications that insert at the second they read |
| `Replay.LateInsertIsAcceptedTwice` | internal/store/replay_nonces.go:24-67 | for every lifetime below that bound, the run in which a stalled insert is accepted again after pruning |
| `Hmac.SkewIsExact` | internal/auth/hmac.go:120-126 | while clock plus skew fits 64 bits the test rejects exactly outside the window |
| `Hmac.SkewIsExactIff` | internal/auth/hmac.go:120-126 | the test is exact for every timestamp if and only if clock plus skew fits 64 bits |
| `Hmac.SkewWrapsAtTheEnd` | internal/auth/hmac.go:120-126 | beyond that, the smallest timestamp wraps into the window |
| `Hmac.CanonicalLayout` | internal/shared/hmac.go:30-34 | verb, path, timestamp, nonce and body hash stand in the signed text in this order with a line feed between |
| `Hmac.CanonicalTakenApart` | internal/shared/hmac.go:30-34 | the first line is the verb, the last three are timestamp, nonce and body hash, and the path is what is left |
| `Hmac.CanonicalFixesRequest` | internal/shared/hmac.go:30-34 | equal signed texts are equal requests, verb and path included |
| `Hmac.CanonicalFixesTimestamp` | internal/shared/hmac.go:32-34 | what a signature covers fixes timestamp, nonce and body hash, whatever the path holds |
| `Hmac.Verifier.Verify` | internal/auth/hmac.go:101-149 | accepts exactly a live device of a live account in the window with a correct and unseen signature; gives the first fault as the reason otherwise, and records nothing |
| `Hmac.Verifier.SecretFor` | internal/auth/hmac.go:161-176 | the cached secret, or the opened one, which is then cached |
| `Hmac.Verifier.Invalidate` | internal/auth/hmac.go:155-159 | drops one cached secret |
| `Hmac.Verifier.PruneExpired` | internal/store/replay_nonces.go:55-67 | removes exactly the nonces expired before now and counts them |
| `Quorum.DiscoverFamily` | internal/client/ipdiscovery/discover.go:82-119 | accepts an address exactly when it has strictly more votes than any other and at least the quorum, for every order of arrival and iteration |
| `Quorum.Count` | internal/client/ipdiscovery/discover.go:102-105 | the vote count of every answered address and nothing else |
| `Quorum.Vote` | internal/client/ipdiscovery/discover.go:106-118 | the strict winner of the counts, or none |
| `Quorum.EverySuccessVotes` | internal/client/ipdiscovery/discover.go:98-105 | every successful answer is one vote and nothing else is |
| `Quorum.WrongAreThoseWhoDiffer` | internal/client/ipdiscovery/discover.go:82-119 | the wrong providers are those that answered something else |
| `Quorum.TooFewWrongNeverDecide` | internal/client/ipdiscovery/discover.go:82-119 | a wrong address is accepted only if at least quorum providers gave wrong answers |
| `Quorum.ArrivalDoesNotMatter` | internal/client/ipdiscovery/discover.go:98-105 | the decision is the same for every permutation of the answers |
| `Quorum.UnanimityDecides` | internal/client/ipdiscovery/discover.go:54-68 | a quorum no larger than the provider list is reached when all agree |

## Left out

- Fanout.WriterIsAnnounced: writers run one after another. The check-in and admin paths write before they take the fan-out mutex, so the code does not order the events of two writers racing on one device.
- Streams.StreamsConverge: subscribers are ids rather than heap objects, and handlers are steps of a transition system rather than goroutines; ping and close frames, the wait of a shutdown, and connections after an eviction are not modelled.
- Sweep.SweepIsExact: a tick uses one clock reading for its rows; notices are the ladder's, not the mails.
- Hubs.Hub.Shutdown: waiting for the pumps to end, and giving up when the caller's context expires.
- Server.DeviceServer.Bump: the changed_at stamp beside the sequence number.
- Server.DeviceServer.AppendHistory: the client version column, and the default for an unset observed_at.
- Server.DeviceServer.Checkin: last_seen_at, labels, host metadata and client versions are not columns of the model; store failures and payloads that fail to render are excluded.
- Server.DeviceServer.Dispatch: the enqueue of webhook deliveries is OutboxWorker.Worker.Enqueue, modelled apart.
- Server.DeviceServer.ListByUser: the order by label.
- Server.DeviceServer.ApplyDisabled: revoking the account's sessions, and a request that leaves the flag out.
- Server.DeviceServer.DeleteUser: the guards against deleting oneself or the last admin.
- Server.DeviceServer.Warn: the notices a rung sends are those of module Ladder; a store failure ends the device's turn in the code.
- Server.DeviceServer.Act: the removal notices collected for the digest.
- Server.DeviceServer.Run: a device whose step fails, a shutdown in mid-tick, and the digest mail.
- Paging.HistoryPage: a page lists row keys; the other columns are those of the row with that id.
- Paging.AuditPage: likewise row keys only.
- Grants.LiveLinksAreCurrent: a delete that fails after an address was saved leaves the change in flight for good; account deletion, audit rows and the mail's wording are left out.
- AccountRuns.AddressesStayUnique: NormalizeAddress is any function whose results are non-empty and canonical; case folding is that of ASCII; an operation reads the rows as they stand, so a guard never races with a write.
- AccountServices.AccountService.Request: the link, its lifetime and the delivery report in the answer.
- AccountServices.AccountService.Confirm: deleting the account's links is a step of module Grants; the notice to the old address is left out.
- AccountServices.AccountService.AdminSet: as for Confirm.
- AccountServices.AccountService.SyncFromIDP: as for Confirm; the notice is sent detached.
- AccountServices.AccountService.Invite: role names, whether passkeys are available, and the link, which module Grants mints.
- Mailer.OutcomeIsNeverLost: two threads as interleaved steps, in the sequentially consistent order the Go memory model gives them; sanitizing and log text are left out.
- DeviceFlow.DeviceCodeEnroll: client and server share one time line, and the clock already shows more seconds than the interval; intervals so large that a 64-bit duration overflows are not considered.
- DeviceFlow.DeviceFlows.Start: a disabled flow, a provider that fails, and the body of the answer.
- DeviceFlow.DeviceFlows.Poll: a store failure at the pacing step, answered with 500.
- Enrollment.OneDevicePerCode: compensating deletes succeed; deleting the whole account is left out.
- OutboxWorker.Worker.Enqueue: an insert that fails, which the code logs and skips.
- Backoff.DelayBounds: float rounding is not modelled; truncation and 64-bit wrap-around are.
- Hmac.Verifier.Verify: store failures, and the nonce_store_error answer; one call at a time; a secret cached before a rotation keeps authenticating until it is invalidated.
- Quorum.DiscoverFamily: the concurrent lookups are their answers; timeouts are failures.
- RedeemFinish's passkey ceremony, credential revocation at redeem, and enrollment without a code.
- HTTP routing, sessions, the web UI, command line, configuration loading, logging, telemetry, templates.
- Cryptography, WebAuthn and OIDC token verification: results are parameters.
- Address parsing and the CIDR rendering of events: stored addresses are opaque text.
- The drains of audit rows, deliveries, codes and nonces: the same loop as history retention with one policy.
- DeviceRepo.UpdateIP, which only tests call.
