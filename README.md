# Security-audit P2P file sharing, modelled in Dafny

This project models the core of a peer-to-peer file-sharing application. The
application has three parts:

- **The coordinator** (`server.js`). An Express and Socket.io process that keeps four registries:
  - the connected sockets (`peers`);
  - the global file catalogue (`sharedFiles`);
  - the password-protected, expiring rooms (`rooms`);
  - the outstanding password challenges (`zkpChallenges`).

  It handles room creation and lookup over HTTP, `join-room`, `password-proof`, `share-file`, the WebRTC signalling relay, `unshare-file`, `leave-room` and `disconnect`. Two timers sweep expired rooms and stale challenges.
- **The browser page's download scheduler** (`public/app.js`):
  - a `DownloadQueue` with FCFS, SJF and Priority policies;
  - a counting `Semaphore` that limits concurrent downloads;
  - the handlers that change them: leaving a room, the `files-list`, `file-available` and `file-removed` events, removing a queue item, drag-and-drop reordering, and the policy and limit settings.
- **The crypto helpers' structure** on both sides (`utils/crypto.js`, `public/crypto-client.js`):
  - room ids and random strings;
  - hex rendering and identity prefixes;
  - the password hash and challenge proof;
  - the room-key material;
  - the per-chunk hash chain;
  - the byte loops of the base64 helpers.

## Files

- **`common.dfy`**: values shared by every part. This covers bytes, digests, the file record, identities, and JavaScript truthiness.
- **`encoding.dfy`**: Node's `'hex'` codec, UTF-8 and decimal rendering, with the hex round trip.
- **`server_crypto.dfy`** and **`client_crypto.dfy`**: the two crypto helpers. SHA-256 and PBKDF2 are function parameters, and random bytes are inputs.
- **`coordinator_state.dfy`**: the coordinator as a state machine. Each handler is a function from the registries to the new registries plus the emitted events. The effects lemmas say what each handler changes and what it leaves alone.
- **`coordinator_registry.dfy`**: the `Registry` class. Its fields are the four maps, Socket.io's room table and an outbox of emits. Each handler is a method proved equal to its state-machine function, and the two sweeps are loops.
- **`coordinator_invariants.dfy`**: the registry invariant `Valid`, which every handler keeps. It also holds the lemmas that exhibit the coordinator's unchecked cases:
  - a room id that is never collision-checked;
  - `unshare-file` without an ownership check;
  - stale room ids after a sweep;
  - stale membership after a second join or a disconnect.
- **`scheduler.dfy`**: `DownloadQueue` and `Semaphore` as classes. Specification functions on a `Sched` value go with them, along with lemmas on slot accounting. Accounting is kept when the slot count equals the running items plus the "detached" downloads, those whose item left the queue while the transfer went on. A download's end (`DownloadEnd`) is the `completeDownload`-then-`release` pair.
- **`client_session.dfy`**: the page handlers as functions on the page state, the `Client` class whose methods are proved equal to them, and lemmas on catalogue scope and slot accounting.
- **`findings.dfy`**: the two places where the browser's crypto helpers and the coordinator's disagree, each with its correction.

## Model

| member | source | states |
|---|---|---|
| Coordinator.NewRoom | server.js:48-64 | a created room has no members, files or keys; it stores `hashPassword(password)` exactly when a password is given and expires at `now + expiresIn` exactly when `expiresIn` is truthy |
| CoordinatorRegistry.Registry.CreateRoom | server.js:48-64 | the room id is 9 alphanumeric characters and the new room is stored under it, replacing any room that already had that id |
| Coordinator.RoomInfoStep | server.js:77-102 | "not found" exactly for an unknown id; "expired" exactly for an expired room, which is then deleted; otherwise nothing changes and the summary reports password need, member count, file count and expiry |
| CoordinatorRegistry.Registry.RoomInfo | server.js:77-102 | the registry and the response are those of the room-info step |
| Coordinator.ConnectEffects | server.js:274-282 | a new socket is registered with no room; it is sent the full peers list, itself included, and the global catalogue; every other socket gets `peer-joined` with its id |
| CoordinatorRegistry.Registry.Connect | server.js:110-122 | the registry and outbox after a connection are the connect step's |
| Coordinator.Snapshot | server.js:178-187 | the `room-joined` member list has exactly the room's members as keys |
| Coordinator.AdmitEffects | server.js:154-195 | an admitted socket is a member of the room it now names; a truthy key is recorded; the snapshot lists exactly the members and files; the others are told; nothing else changes |
| CoordinatorRegistry.Registry.AdmitPeer | server.js:154-195 | the registry and outbox after admission are the admit step's |
| Coordinator.JoinRoomOutcomes | server.js:125-152 | the right or absent password admits; every rejection leaves peers, transport rooms and the room alone and answers the joiner only; an expired room is deleted; a password room without a password stores (or overwrites) a fresh challenge; an unknown room gives "Room not found" |
| CoordinatorRegistry.Registry.JoinRoom | server.js:125-197 | the registry and outbox after `join-room` are the join step's |
| Coordinator.PasswordProofOutcomes | server.js:200-226 | no stored challenge gives "No challenge found" and no change; a proof that is not 32 bytes throws; otherwise the challenge is consumed on every outcome and an accepted proof admits with the identity and key captured at challenge time |
| CoordinatorRegistry.Registry.PasswordProof | server.js:200-271 | a proof that is not 32 bytes makes `verifyProof` throw: the method returns the exception and changes nothing more, the process exit that follows being a finding; otherwise the registry and outbox are the proof step's |
| Coordinator.EmptyProofThrows | server.js:200-214 | with a stored challenge for a live room, the empty proof makes the handler throw |
| CoordinatorInvariants.PasswordProofCaughtKeepsValid | server.js:200-226 | with the exception caught, every proof yields a step that keeps the invariant: the handler's own step when `verifyProof` returns, the challenge consumed and "Invalid password" otherwise |
| Coordinator.RoomFile | server.js:294-304 | a room share is filed under `socketId-now-name` in its room, owned by the sharer |
| Coordinator.GlobalFile | server.js:334-341 | a global share is filed under `socketId-now-name` with no room, owned by the sharer |
| Coordinator.ShareFileScoping | server.js:285-360 | a socket in a live room adds the file only to that room and its room-file list and tells the room; a socket whose room is gone changes nothing; any other socket adds it only to the global catalogue and its global list and tells everyone |
| CoordinatorRegistry.Registry.ShareFile | server.js:285-360 | the registry and outbox after `share-file` are the share step's |
| Coordinator.RelayStep | server.js:363-385 | a signal goes to the target and never back to the sender; nothing changes |
| CoordinatorRegistry.Registry.Relay | server.js:363-385 | only the outbox grows, by the relayed signal |
| Coordinator.Filter | server.js:402 | filtering removes exactly the given id and keeps every other entry |
| Coordinator.UnshareFileEffects | server.js:388-431 | a room unshare removes the file from that room and the caller's room list and sends the room the removal and the new list; a global unshare does the same on the global catalogue for everyone; other peers are untouched |
| CoordinatorRegistry.Registry.UnshareFile | server.js:388-431 | the registry and outbox after `unshare-file` are the unshare step's |
| CoordinatorRegistry.DeleteEach | server.js:445-448 | deleting each listed id removes exactly those keys, whatever their order and repetitions |
| Coordinator.RoomWithout | server.js:441-456 | a departing socket leaves the members and keys, and exactly its listed room files leave the catalogue |
| Coordinator.StoreOrDrop | server.js:476-480 | a room left empty is deleted, any other is stored, and other rooms are untouched |
| CoordinatorRegistry.DepartRoom | server.js:438-481 | the room side of a departure is the departed room, stored or dropped |
| Coordinator.GlobalPeers | server.js:493 | the peers list sent on leaving holds exactly the peers in no room |
| Coordinator.LeaveRoomEffects | server.js:434-494 | ignored unless the socket's room is the named one, so a payload without `roomId` is always ignored (`undefined` is neither null nor an id); otherwise the socket leaves members and keys, exactly its room files go and are reported, an empty room is deleted, its room becomes null, its global files stay, and it gets the global catalogue and roomless peers |
| CoordinatorRegistry.Registry.LeaveRoom | server.js:434-494 | the registry and outbox after `leave-room` are the leave step's |
| Coordinator.LeaveAll | server.js:497 | a closed socket has left every transport room |
| Coordinator.DisconnectEffects | server.js:497-551 | the socket's room loses it, its key and its room files and is deleted when empty; its global files leave the catalogue; its entry and challenge are deleted; everyone is told |
| CoordinatorRegistry.Registry.Disconnect | server.js:497-551 | the registry and outbox after `disconnect` are the disconnect step's |
| Coordinator.ExpiredRooms | server.js:558-559 | a room is swept exactly when it has a truthy expiry in the past |
| Coordinator.SweptRooms | server.js:555-574 | after the sweep exactly the unexpired rooms remain, unchanged, and no peer entry changes |
| CoordinatorRegistry.LeaveTransportRoom | server.js:563-568 | each listed member still connected leaves the expired room's transport room; no other room changes |
| CoordinatorRegistry.SweepStart | server.js:555-557 | before the sweep nothing has been swept |
| CoordinatorRegistry.PendingAudience | server.js:560 | an unswept room's `room-expired` reaches its audience from before the sweep |
| CoordinatorRegistry.SweepExpired | server.js:558-571 | sweeping one expired room deletes it and removes its connected members from its transport room |
| CoordinatorRegistry.SweepKept | server.js:558 | passing over an unexpired room changes nothing |
| CoordinatorRegistry.ExpiredNext | server.js:558-571 | each expired room is announced once |
| CoordinatorRegistry.AnnounceNext | server.js:560 | each new announcement adds one `room-expired` event for a room not yet announced |
| CoordinatorRegistry.SweepDone | server.js:555-574 | with nothing pending, the loop state is the swept registry |
| CoordinatorRegistry.SweepLoop | server.js:555-574 | every room is visited once: exactly the expired rooms are deleted, their connected members leave their transport rooms, and each is announced once |
| CoordinatorRegistry.SweepOne | server.js:557-572 | one loop pass deletes and announces an expired room, or changes nothing |
| CoordinatorRegistry.Registry.constructor | server.js:31-39 | every registry starts empty and the invariant holds |
| CoordinatorRegistry.Registry.SweepRooms | server.js:555-574 | the registry becomes the swept one and each expired room is announced exactly once, to its audience |
| Coordinator.SweptChallenges | server.js:577-586 | exactly the challenges more than five minutes old are deleted |
| CoordinatorRegistry.Registry.SweepChallenges | server.js:577-586 | the challenges become the swept ones |
| CoordinatorInvariants.ConnectKeepsValid | server.js:110-122 | a connection keeps the registry invariant |
| CoordinatorInvariants.AdmitKeepsValid | server.js:154-195 | admission keeps the invariant |
| CoordinatorInvariants.JoinRoomKeepsValid | server.js:125-197 | `join-room` keeps the invariant |
| CoordinatorInvariants.PasswordProofKeepsValid | server.js:200-271 | `password-proof` keeps the invariant |
| CoordinatorInvariants.ShareFileKeepsValid | server.js:285-360 | `share-file` keeps the invariant; files are filed under their own id and scope |
| CoordinatorInvariants.UnshareFileKeepsValid | server.js:388-431 | `unshare-file` keeps the invariant |
| CoordinatorInvariants.LeaveRoomKeepsValid | server.js:434-494 | `leave-room` keeps the invariant |
| CoordinatorInvariants.DisconnectKeepsValid | server.js:497-551 | `disconnect` keeps the invariant |
| CoordinatorInvariants.SweepRoomsKeepsValid | server.js:555-574 | the room sweep keeps the invariant |
| CoordinatorInvariants.SweepChallengesKeepsValid | server.js:577-586 | the challenge sweep keeps the invariant |
| CoordinatorInvariants.RoomInfoKeepsValid | server.js:77-102 | the room-info route keeps the invariant |
| CoordinatorInvariants.CreateRoomKeepsValid | server.js:48-64 | a new room keeps the invariant when no room and no socket uses its id |
| CoordinatorInvariants.CreateRoomOverStaleIdBreaksValid | server.js:51-64 | with no collision check, a drawn id that a socket still names gives that socket a room it is not a member of |
| CoordinatorInvariants.UnshareIgnoresOwnership | server.js:388-412 | any connected socket removes another socket's file from a room |
| CoordinatorInvariants.JoinKeepsOldMembership | server.js:154-167 | a second join leaves the socket a member of its previous room |
| CoordinatorInvariants.DisconnectLeavesStaleMember | server.js:503-535 | disconnect cleans only the named room, so the socket stays listed in another room |
| CoordinatorInvariants.SweptMemberCannotShare | server.js:555-574 | the sweep leaves members naming the deleted room, so their later shares do nothing |
| Scheduler.FindFirst | public/app.js:657-659 | the index found passes the test, and no earlier element does; none means no element passes |
| Scheduler.FindId | public/app.js:662 | the index found holds the id, and no earlier item does; none means no item has it |
| Scheduler.FirstWaiting | public/app.js:657-659 | the first waiting item, or none exactly when nothing waits |
| Scheduler.Drop | public/app.js:677 | the filter keeps exactly the items with other ids |
| Scheduler.InsertPos | public/app.js:643-655 | the insertion point follows every item with a key not greater than the new one's |
| Scheduler.Insert | public/app.js:643-655 | inserting into a sorted queue keeps it sorted and adds exactly the item |
| Scheduler.SortBy | public/app.js:643-655 | the policy's sort gives a sorted permutation with the same running items |
| Scheduler.SortQueueKeeps | public/app.js:643-655 | `sortQueue` only permutes: sorted by arrival, size or descending priority for the three policies, unchanged otherwise; ids stay unique and accounting is kept |
| Scheduler.SortByUnique | public/app.js:643-655 | sorting keeps ids unique |
| Scheduler.SortByStrictlySorted | public/app.js:643-655 | a queue already strictly ordered by the key is left as it is |
| Scheduler.SortByStable | public/app.js:643-655 | the sort is stable, as `Array.prototype.sort` is: for every key, the items with that key keep their queue order |
| Scheduler.InsertKeepsClass | public/app.js:643-655 | an inserted item lands after every item with its key |
| Scheduler.InsertSorted | public/app.js:643-655 | insertion at the computed point is sorted |
| Scheduler.InsertUnique | public/app.js:643-655 | insertion of a fresh id keeps ids unique |
| Scheduler.InsertGreatest | public/app.js:643-655 | an item with the greatest key goes last |
| Scheduler.SortByAbsent | public/app.js:643-655 | sorting adds no id |
| Scheduler.EnqueueKeeps | public/app.js:619-641 | a new waiting item goes first when its priority is at least 10 and last otherwise; ids stay unique and accounting is kept |
| Scheduler.DownloadQueue.AddToQueue | public/app.js:619-641 | the queue becomes the old queue with the new waiting item placed by priority, and the id is returned |
| Scheduler.DownloadQueue.constructor | public/app.js:612-617 | an empty queue under FCFS |
| Scheduler.DownloadQueue.SortQueue | public/app.js:643-655 | the queue becomes the policy's order of the old queue |
| Scheduler.DownloadQueue.GetNext | public/app.js:657-659 | an item is returned exactly when one waits, and it is the first waiting item of the queue |
| Scheduler.DownloadQueue.StartDownload | public/app.js:661-669 | a queued id becomes running since now and active; an unknown id changes nothing |
| Scheduler.DownloadQueue.CompleteDownload | public/app.js:671-682 | the item leaves the queue and active set, is appended completed, and the next item may start |
| Scheduler.DownloadQueue.ProcessNextInQueue | public/app.js:684-705 | the queue and semaphore become the process-next state |
| Scheduler.ProcessNextEffects | public/app.js:684-705 | with a free slot and a waiting item, exactly one slot is taken and exactly the first waiting item starts; otherwise nothing changes |
| Scheduler.ProcessNextKeeps | public/app.js:684-705 | starting the next item keeps ids unique, accounting and the limit |
| Scheduler.Semaphore.constructor | public/app.js:715-719 | the limit is given and no slot is held |
| Scheduler.Semaphore.Acquire | public/app.js:725-732 | a slot is taken and true returned exactly when the count is below the limit; otherwise nothing changes |
| Scheduler.Semaphore.Release | public/app.js:734-741 | the queue and semaphore become the release state |
| Scheduler.ReleaseKeeps | public/app.js:734-741 | a release never takes the count below zero and keeps it within the limit |
| Scheduler.ReleasedShape | public/app.js:734-741 | a release changes no item's id or file |
| Scheduler.ReleaseTimesShape | public/app.js:734-741 | repeated releases change no item's id or file |
| Scheduler.ReleaseTimesKeeps | public/app.js:734-741 | one release per slot held by neither a running item nor a detached download restores the balance, within the limit, and only starts waiting items |
| Scheduler.ReleasedAdvanced | public/app.js:734-741 | a release only starts waiting items and keeps ids unique |
| Scheduler.ReleaseTimesAdvanced | public/app.js:734-741 | repeated releases only start waiting items and keep ids unique |
| Scheduler.CompleteRunning | public/app.js:671-682 | completing a running item takes it out of the queue but not its slot; the rest keep their order, some waiting ones started |
| Scheduler.EndRunningKeeps | public/app.js:1718-1720 | the end of a download whose item is queued and running keeps the count equal to running items plus detached downloads, within the limit; the item is gone and the others keep their order |
| Scheduler.EndUnqueued | public/app.js:1597-1603 | the end of a download whose item is no longer queued completes nothing and still gives up one slot |
| Scheduler.TimerAfterEndOvercommits | public/app.js:1564-1571 | a download ended once and then again by its timer leaves the count one below the running downloads while another runs |
| Scheduler.ClearedTimerKeeps | public/app.js:1564-1571 | with the timer cleared, a running download's end keeps the balance and the timer afterwards changes nothing |
| Scheduler.Keep | public/app.js:993-999 | a queue filter keeps exactly the items its test accepts |
| Scheduler.KeepSplitsCount | public/app.js:993-999 | running items split between the kept and dropped parts |
| Scheduler.KeepUnique | public/app.js:993-999 | filtering keeps ids unique |
| Scheduler.RunningCountUpdate | public/app.js:661-669 | replacing one item changes the running count by its status change |
| Scheduler.RunningCountDrop | public/app.js:677 | removing an item takes its status out of the count |
| Scheduler.UniqueDrop | public/app.js:677 | removing an id keeps ids unique |
| Scheduler.DropAbsent | public/app.js:677 | removing an absent id changes nothing |
| Scheduler.ProcessNextAbsent | public/app.js:684-705 | starting the next download never brings back an id that was removed from the queue |
| Scheduler.LoweringLimitOvercommits | public/app.js:1960-1966 | lowering the limit below the held slots breaks the bound and starts nothing |
| ClientSession.FileAvailableKeepsScoped | public/app.js:1009-1033 | a file is listed exactly when someone else shares it in the page's scope, so the catalogue stays in scope |
| ClientSession.Client.FileAvailable | public/app.js:1009-1033 | the page becomes the file-available state |
| ClientSession.Others | public/app.js:988 | exactly the other peers' files are kept |
| ClientSession.FilesListScoped | public/app.js:982-1007 | the catalogue is in scope exactly when every foreign listed file is |
| ClientSession.Client.FilesList | public/app.js:982-1007 | the page and queue become the files-list state |
| ClientSession.FilesListDetaches | public/app.js:990-999 | the cleanup keeps exactly the items of listed files and the count; the downloads of dropped running items hold their slots on as detached downloads |
| ClientSession.FindRecord | public/app.js:1046 | the first catalogue entry with the id, or none |
| ClientSession.FindQueued | public/app.js:1063 | the first queue item of the file, or none |
| ClientSession.FileRemovedKeepsScoped | public/app.js:1036-1085 | the catalogue stays in scope; it is unchanged when the file is not listed and otherwise loses exactly the file's first entry; the own file goes, exactly the file's downloads leave the transfers, and the others keep their values |
| ClientSession.FileRemovedCounts | public/app.js:1063-1080 | afterwards the count equals the running items plus the detached downloads, the removed running item's download added, minus one per registered download released; the queue is the old one without the item, in order |
| ClientSession.FileRemovedThenEndOvercommits | public/app.js:1072-1080 | a removed file's registered download, released by the handler, releases again at its end, leaving the count one below the running downloads while another runs |
| ClientSession.FileRemovedLeavingSlotsKeeps | public/app.js:1063-1080 | without the releases, the same page results, a removed running item's download becomes detached, and its end restores the balance |
| ClientSession.Client.CancelTransfers | public/app.js:1073-1080 | each cancelled transfer goes and releases one slot |
| ClientSession.Client.FileRemoved | public/app.js:1036-1085 | the page and queue become the file-removed state |
| ClientSession.RoomFilter | public/app.js:530-545 | the filter visits each index once, keeps the queue length during the pass, and keeps only indices at or after the start |
| ClientSession.RoomFilterIndices | public/app.js:533-543 | the filter keeps exactly the indices of the items outside the room, whatever its releases start |
| ClientSession.RoomFilterAdvanced | public/app.js:533-543 | the filter's releases only start waiting items |
| ClientSession.PickOutside | public/app.js:533-543 | picking the kept indices is filtering the queue by the room |
| ClientSession.LeaveQueueKept | public/app.js:530-545 | the queue after the filter is exactly the items outside the room, in order, some waiting ones started |
| ClientSession.Pick | public/app.js:532-545 | the kept items, in order |
| ClientSession.FilterItem | public/app.js:533-544 | one callback: reports a room item and releases its slot when it runs |
| ClientSession.DropRoomItems | public/app.js:530-545 | the queue and semaphore become the leave-queue state |
| ClientSession.LeaveRoomScoped | public/app.js:505-586 | after leaving, the page is global with an empty catalogue and one leave request more; exactly the own files and transfers outside the room remain, with their values |
| ClientSession.Client.LeaveRoom | public/app.js:505-586 | the page and queue become the leave-room state |
| ClientSession.LeaveRoomDoubleRelease | public/app.js:530-557 | a running room download with an active transfer is released twice, so the count reaches zero while a download runs |
| ClientSession.LeaveRoomKept | public/app.js:505-586 | after leaving, the queue is exactly the items outside the room, in order, some waiting ones started, with unique ids |
| ClientSession.LeaveRoomLeavingSlotsKeeps | public/app.js:530-557 | without the releases, the same session results, the queue keeps exactly the items outside the room as the as-written filter does, and the room's running downloads become detached with their slots |
| ClientSession.RemoveFromQueueKeeps | public/app.js:3147-3195 | removal keeps accounting, the limit and unique ids; the queue is the old one without the item, in order, some waiting items started |
| ClientSession.RemoveThenEndOvercommits | public/app.js:3159-3170 | a removed running item's download, released by the handler, releases again at its end, leaving the count one below the running downloads while another runs |
| ClientSession.RemoveLeavingSlotKeeps | public/app.js:3147-3195 | without the release, the same session results, the removed running item's download becomes detached, and its end restores the balance |
| ClientSession.ReleaseRunningItem | public/app.js:3159-3162 | releasing for a running item still queued leaves it in place, one slot short |
| ClientSession.Client.RemoveFromQueue | public/app.js:3147-3195 | the page and queue become the removal state |
| ClientSession.MovedItems | public/app.js:3288-3290 | the moved item lands at the target index, the queue is a permutation, and the running items are the same |
| ClientSession.MovedMultiset | public/app.js:3288-3290 | moving is a permutation |
| ClientSession.MovedCount | public/app.js:3288-3290 | moving keeps the running count |
| ClientSession.MovedUnique | public/app.js:3288-3290 | moving keeps ids unique |
| ClientSession.ReprioritisedEffects | public/app.js:3295-3298 | priorities become length minus index, strictly falling to 1, other fields kept, so the priority policy leaves the order |
| ClientSession.QueueDropEffects | public/app.js:3263-3303 | with two distinct present ids the dragged item lands at the target's index and priorities are renumbered; otherwise nothing changes |
| ClientSession.HandleQueueDrop | public/app.js:3263-3303 | the queue becomes the drop state |
| ClientSession.ChangeSchedulingAlgorithm | public/app.js:1951-1957 | with the select present, the policy becomes its value and the queue is sorted by it; otherwise nothing changes |
| ClientSession.ChangeSemaphoreLimit | public/app.js:1960-1966 | with the select present, the limit becomes its value and the count is untouched |
| ClientSession.Client.constructor | public/app.js:602-605 | the page starts in the global scope with nothing listed |
| ServerCrypto.GenerateRoomId | utils/crypto.js:350-359 | exactly 9 characters, character i being the alphabet entry at byte i mod 62, so all alphanumeric |
| ServerCrypto.RandomString | utils/crypto.js:379-383 | exactly the requested number of lowercase hex characters |
| ServerCrypto.GenerateChallenge | utils/crypto.js:158-160 | 64 lowercase hex characters that decode to the random bytes |
| ServerCrypto.GenerateIdentityHash | utils/crypto.js:366-372 | six hex characters, a prefix of the digest's hex |
| ServerCrypto.HashPassword | utils/crypto.js:150-152 | 64 lowercase hex characters decoding to the digest of the password |
| ServerCrypto.ComputeProof | utils/crypto.js:168-171 | the proof decodes to the digest of password followed by challenge |
| ServerCrypto.VerifyProof | utils/crypto.js:180-193 | throws exactly when the proof does not decode to 32 bytes; otherwise true exactly when it decodes to the digest of stored hash followed by challenge |
| ServerCrypto.VerifyAcceptsProofOfHash | utils/crypto.js:168-193 | a proof computed over the stored hash is accepted |
| ServerCrypto.DeriveRoomKey | utils/crypto.js:86-97 | the key material is the password when non-empty, else the room id; the salt is the room id's digest |
| ServerCrypto.RoomIdAloneDeterminesKey | utils/crypto.js:86-97 | without a password the key is derivable from the room id alone |
| ServerCrypto.CreateHashChain | utils/crypto.js:296-312 | one hash per chunk, each the digest of the decoded previous hash (nothing for genesis `'0'`) and the chunk |
| ServerCrypto.ExtendServerChain | utils/crypto.js:300-309 | appending the next hash keeps every earlier link of the chain |
| ServerCrypto.ServerChainDigests | utils/crypto.js:296-312 | each hash is the hex of the raw digest chain |
| ServerCrypto.VerifyChunk | utils/crypto.js:321-330 | only an index inside the chain can verify |
| ServerCrypto.ServerChainVerifies | utils/crypto.js:296-330 | every chunk verifies against the chain built from it |
| ClientCrypto.DigestHexIsHex | public/crypto-client.js:174-180 | the browser's padded rendering equals Node's hex on every byte string |
| ClientCrypto.HashPassword | public/crypto-client.js:174-180 | 64 lowercase hex characters, equal to the coordinator's hash |
| ClientCrypto.ComputeProof | public/crypto-client.js:188-191 | equal to the coordinator's `computeProof`: the digest of password followed by challenge |
| ClientCrypto.DeriveRoomKey | public/crypto-client.js:98-127 | the same key as the coordinator's derivation |
| ClientCrypto.HashFile | public/crypto-client.js:378-382 | the lowercase hex of the SHA-256 digest of the bytes, 64 characters |
| ClientCrypto.GenerateIdentityHash | public/crypto-client.js:393-397 | six hex characters, the same as the coordinator's |
| ClientCrypto.CreateHashChain | public/crypto-client.js:329-350 | one hash per chunk, each the digest of the previous hash's UTF-8 text (genesis `'00000000'`) and the chunk |
| ClientCrypto.ExtendClientChain | public/crypto-client.js:333-347 | appending the next hash keeps every earlier link of the chain |
| ClientCrypto.ClientChainDigests | public/crypto-client.js:329-350 | each hash is the hex of the browser's digest chain |
| ClientCrypto.VerifyChunk | public/crypto-client.js:360-371 | only an index inside the chain can verify |
| ClientCrypto.ClientChainVerifies | public/crypto-client.js:329-371 | every chunk verifies against the chain built from it |
| ClientCrypto.BytesToBinary | public/crypto-client.js:404-411 | one character per byte, with the byte as its code |
| ClientCrypto.BinaryToBytes | public/crypto-client.js:418-425 | a fresh array as long as the string, element i being character i's code as a byte |
| ClientCrypto.BinaryRoundTrip | public/crypto-client.js:404-425 | the two loops are inverse |
| Encoding.Hex | utils/crypto.js:150-152 | two lowercase hex digits per byte |
| Encoding.HexDecode | utils/crypto.js:188-191 | at most one byte per two characters |
| Encoding.HexRoundTrip | utils/crypto.js:298-304 | decoding Node's hex gives the bytes back |
| Encoding.ShortHexDecodesEmpty | utils/crypto.js:298 | the genesis `'0'` decodes to no bytes |
| Encoding.Utf8Append | utils/crypto.js:168-171 | encoding a concatenation concatenates the encodings |
| Findings.ClientProofRejected | public/crypto-client.js:188-191 | the browser's proof for the right password is refused by `verifyProof` for every challenge |
| Findings.ClientProofNotAccepted | server.js:200-220 | in a room with that password, the browser's proof is not accepted |
| Findings.HashedProof | public/crypto-client.js:188-191 | the corrected proof decodes to the digest of the password's hash followed by the challenge |
| Findings.HashedProofAccepted | utils/crypto.js:180-193 | the corrected proof is accepted exactly when the digests agree, so the right password always is |
| Findings.HashedProofAdmits | server.js:200-226 | the corrected proof for the room's password is accepted |
| Findings.ClientChainRejectedByServer | public/crypto-client.js:329-350 | the browser's chain fails the coordinator's `verifyChunk` |
| Findings.CreatePortableChain | public/crypto-client.js:329-350 | the corrected browser chain is exactly the coordinator's chain |
| Findings.PortableChainIsServerChain | utils/crypto.js:296-312 | two chains the coordinator accepts for the same chunks are equal, so the corrected browser chain is the one `createHashChain` builds and each chunk passes `verifyChunk` |

## Left out

- The cryptographic primitives are parameters of the model, never defined: SHA-256, PBKDF2, AES-GCM, ChaCha20 and RSA. This covers the session and identity crypto, encryption, decryption and signing.
- Randomness is an input of the model. This covers `crypto.randomBytes`, `Math.random` and its rendered text.
- The clock is an input. One `now` stands for every `Date.now()` reading inside a handler, although the source may read the clock more than once in one handler.
- HTTP transport is not modelled:
  - status codes;
  - the share link in the create response;
  - the 500 path of the create route's `try`/`catch`.
- Socket.io transport is not modelled. Emits are records in an outbox, and `socket.to` and `io.to` are resolved to audience sets.
- CoordinatorRegistry.Registry.SweepRooms: the events come in some order, one per expired room. JavaScript's map iteration order is not modelled.
- The list payloads are sets and maps in the model: `peers-list`, `files-list` and the `room-joined` snapshot. The source sends `Array.from(...)` arrays in the maps' insertion order; that order is not modelled, only which entries the list holds.
- ClientSession.Client.CancelTransfers: transfers are cancelled in some order. Each cancellation releases one slot; that count is what the model states, not the order.
- Rooms are values inside the registry map, not shared objects. The source never keeps a room reference across handlers, so nothing depends on aliasing.
- Strings are sequences of Unicode scalar values. JavaScript's UTF-16 strings and lone surrogates are not modelled.
- The browser's download I/O is not modelled:
  - WebRTC connections and data channels;
  - `performDownload` and `sendFile`;
  - transfer registration when metadata arrives.

  A download is modelled only by its start and its end. The start is `downloadFileFromQueue` marking the item running. Every end path is the `completeDownload`-then-`release` pair `Scheduler.DownloadEnd`: the file received, the sender's error reply, a channel error, an exception, and the 30-minute timer. When each end comes is a lemma parameter. So is the number of "detached" downloads: those whose item a handler dropped while the transfer went on.
- DOM rendering, toasts, metrics, `getUtilization`, `currentRoomKey` and `pendingRoomJoin` resets, and the incognito class are not modelled. Neither is the no-op cleanup of the nonexistent `currentItem` and `runningItems` fields in `removeFromQueue`.
- Scheduler.DownloadQueue.AddToQueue: the item id `Date.now() + Math.random()` is a parameter. Fresh ids are assumed only by the lemmas that need unique ids.
- ClientSession.ChangeSemaphoreLimit: the limit is the already-parsed integer. A `parseInt` result of `NaN` is not modelled; it would make `canAcquire` false for good.
- ClientSession.FileRemovedCounts: it states the count only when the file's registered downloads are no more than the detached downloads plus its running item, so that no release meets a zero count.
- ClientSession.RemoveFromQueueKeeps: the count is stated as equal to the running items afterwards, not as the old count minus one. The release and the final `processNextInQueue` may each start a waiting item.
- The corrected handlers in Findings (`RemoveLeavingSlot`, `FileRemovedLeavingSlots`, `LeaveRoomLeavingSlots`) only stop releasing. Stopping the download itself (closing its channel and clearing its timer) is not modelled.
- CoordinatorRegistry.Registry.PasswordProof: the process exit after the uncaught throw is not modelled. The method returns the exception and leaves the registry as it was; the crash is a row under Findings.
- The base64 alphabet of `btoa` and `atob` is not modelled. Only the byte-to-character loops around them are modelled.
- The coordinator's `hashFile` (utils/crypto.js:337-339) is not modelled. It is a single digest call, with the same shape as `ServerCrypto.HashPassword` over bytes.
- The stale room ids, the unchecked room-id collisions and the missing ownership check in `unshare-file` are shown by lemmas in `coordinator_invariants.dfy`. The model keeps the handlers as written and does not define corrected handlers for them.

## Findings

| source | as written | input that shows it | evidently intended | confidence | as-written member | corrected member |
|---|---|---|---|---|---|---|
| utils/crypto.js:180-193 | `verifyProof` expects the digest of `hashPassword(p) + challenge`, but the browser sends the digest of `p + challenge` (public/crypto-client.js:188-191) | room password "a", any challenge, a digest that records its input's length | a browser that knows the password is admitted through the challenge | not executed | Findings.ClientProofRejected | Findings.HashedProofAccepted |
| public/crypto-client.js:329-350 | the browser chain starts from `'00000000'` and hashes the previous hash's UTF-8 text; the coordinator's starts from `'0'` (no bytes) and hashes the decoded digest (utils/crypto.js:296-312) | one empty chunk, a digest that records its input's length | both sides build and check the same chain | not executed | Findings.ClientChainRejectedByServer | Findings.CreatePortableChain |
| public/app.js:530-557 | `leaveRoom` releases a running room download in the queue filter and again when cancelling its transfer, and the download, which goes on, releases once more when it ends | a running room item with an active transfer beside a running global item, count 2: the handler alone takes the count to 0 | the room's items leave the queue and each download gives its slot back once, when it ends | not executed | ClientSession.LeaveRoomDoubleRelease | ClientSession.LeaveRoomLeavingSlotsKeeps |
| public/app.js:1564-1571 | the 30-minute timer of `performDownload` is never cleared, so a download that ended is ended again when it fires; `completeDownload` finds nothing and `release` still gives up a slot | two running downloads, count 2: one is received, then its timer fires | each download gives its slot back once | not executed | Scheduler.TimerAfterEndOvercommits | Scheduler.ClearedTimerKeeps |
| public/app.js:3159-3170 | `removeFromQueue` releases a running item's slot but does not stop its download (deleting the transfer entry does not), which releases again when it ends | two running downloads, count 2: one is removed, then it ends | the slot is given back once, when the download ends | not executed | ClientSession.RemoveThenEndOvercommits | ClientSession.RemoveLeavingSlotKeeps |
| public/app.js:1072-1080 | `file-removed` releases once per registered download of the file but does not stop it, and the download releases again when it ends | a running item of the removed file with its transfer registered, beside another running download, count 2 | the slot is given back once, when the download ends | not executed | ClientSession.FileRemovedThenEndOvercommits | ClientSession.FileRemovedLeavingSlotsKeeps |
| server.js:200-214 | `password-proof` calls `verifyProof` outside any `try`; `timingSafeEqual` throws when the proof does not decode to 32 bytes (utils/crypto.js:188-191), and nothing catches it, so the process exits with every room, peer and challenge | an empty proof from a socket holding a challenge for a live room | a malformed proof is refused like a wrong one | not executed | Coordinator.EmptyProofThrows | CoordinatorInvariants.PasswordProofCaughtKeepsValid |
