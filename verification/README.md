# Frostsnap: nonces, signing sessions, genuine checks, backups, firmware transfer and ports

A FROST signer that uses one secret nonce twice gives its secret share away. Most of this project is
about the machinery that prevents that, from the flash of a device up to the bookkeeping of the
coordinator. Five further components with their own hard properties are beside it.

* **The flash record** (`AbWrite`). A value is kept in two copies. A write is four flash steps: erase
  and program one copy, erase and program the other. The supply may fail between any two.
* **Nonce windows** (`NonceStream`). Segments of a nonce stream are merged and consumed by index.
* **The device** (`DeviceNonces`, `NonceSlots`, `NonceRuns`, `NonceAnswers`, `NonceSlotOrder`, `NonceMessages`, `NonceReplies`). A seed is
  ratcheted forward, jobs publish nonces in small pieces, a signing writes both copies before any share
  leaves, and a fixed number of slots is shared by streams. `NonceRuns` pairs the device with a history of
  what it initialised, signed and released: `StepErases` shows that the history does not disturb the device,
  `ReleasesAreComplete` and `InitsAreComplete` that nothing the device does is missing from it.
* **The coordinator** (`CoordNonces`, `Coordinator`, `CoordinatorRuns`, `CoordinatorReplay`,
  `CoordinatorReaders`, `CoordinatorWindows`, `CoordinatorSigning`, `CoordinatorSent`, `CoordinatorAnswers`, `CoordinatorInstances`). Keys, signing
  sessions and the cache of nonce windows change by recorded mutations.
* **Both together** (`NonceProtocol`). Devices from blank flash and a coordinator, with messages that may be
  lost, repeated, reordered or late: the nonces of a session are those the devices sign with.
* **The genuine check** (`GenuineCheck`, `GenuineRuns`, `GenuineAnswers`): one state machine per connection over a
  persistent table.
* **Backup recovery** (`Enumerators`, `Recovery`): two hand-written enumerators and the search over them.
* **The 25-word backup** (`Bits`, `ShareBackup`): an accumulator that encodes and a bit loop that decodes.
* **Firmware upgrades** (`Ota`): erasing, the flow-controlled transfer, and the switch of the boot record.
* **The port registry** (`UsbSerial`, `UsbAnswers`, `UsbGenuine`): two maps, a set and a log of changes, and how the
  genuine check follows that log.

Code that works by changing fields is modelled by classes and methods. Each method is proved against a
function or a predicate over values, and the properties over whole runs are lemmas about those. The modules that end in
`Answers` and `Replies` tell what one operation leaves behind and hands back without those functions, and when it does so.
Integers are unbounded except where the source's width matters: the release profile switches overflow
checks and debug assertions off (`Cargo.toml:106-114`), so 32-bit additions wrap or saturate as written
there. The debug assertions of `delete_up_to` are proved for covered sessions (`CoordinatorWindows.CoveredCloses`);
those that mark a segment that does not connect (`frostsnap_core/src/nonce_stream.rs:77`) and a mutation that cannot be
applied (`fail!`) can be reached, and what the model has is what the code does after them.

Hashes, HMACs, ChaCha20, Schnorr, RSA and FROST are functions carried by a `Crypto` value (or passed as
an argument) about which nothing is assumed, unless a lemma says so: `CoordinatorSigning.Correct` is what FROST promises
of shares that are combined, `Sound` its converse, and `PromisesCanBeKept` shows that there are functions with both. Seeds,
challenges, session ids and the order in which hash maps are traversed are parameters. Every panic of the modelled code
that such parameters can reach is an outcome of the model.

## Where the code falls short of what its comments say

* Replaying the recorded mutations does not always rebuild the coordinator. A first segment of a stream
  that is empty at index 0, or does not fit 32 bits, leaves an empty cache entry that is not recorded.
  `CoordinatorReplay.UnrecordedMutation` says exactly when. `ReplayRebuilds` says exactly which states replay
  rebuilds: those in which every cached stream is named by a recorded segment. `PhantomIsNotReplayed` is an
  instance of a run that is not rebuilt, `PhantomIsMadeGood` of one that is although it had such a segment.
  `CoordinatorReaders` goes through the functions that read the cache and proves which of them can tell the
  two caches apart (`ReadersCanDiffer`).
* Merging a window that fits 32 bits panics for one family of inputs: a non-empty window at index 0 met by
  an empty one at index 0 (`NonceStream.ExtendOutcome`, which also covers windows that do not fit). Two segments bring
  the coordinator there (`CoordinatorInstances.EmptySegmentPanics`).
* A coordinator that names index u32::MAX of a stream, and enough nonces, stops the device:
  `NonceMessages.ReconcilePanics` says when, `MessageHaltsExactly` that nothing else in a message does.
* The comment in `frostsnap_core/src/device.rs:289-290` says that taking no more streams than there are
  slots avoids overwriting. A stream that is found is not refreshed, so it can still be evicted by a new
  one in the same message: `NonceMessages.MessageSurvivors` says exactly which streams survive a message,
  `MatchedStreamIsLostInARun` is an instance from blank flash.
* `request_device_sign` expects to find the device's share and to decrypt the root key. Neither is certain: a
  share can be deleted under an active session as long as its device was not asked
  (`CoordinatorWindows.UnaskedShareCanBeDeleted`), and the key comes from the caller.
  `RequestPanicsWhenShareOrKeyIsGone` says that these are the only two ways to panic for a device of an
  active session.
* A segment that displaces a cached window makes closing the session panic:
  `CoordinatorWindows.DisconnectedSegmentTripsClose` gives the exact condition, `CoordinatorInstances.DisconnectedRunTripsClose`
  a run of the coordinator that gets there.
* `complete_sign_session` asserts that combined shares make a valid signature, because each share was verified. It counts
  devices against share indices, and several devices may hold one share. `CoordinatorSigning.BadCompletionLacksAParty` says
  exactly when the assertion fires; `CoordinatorInstances.SharedShareTripsCompletion` and `ReplayedShareTripsCompletion` are
  runs that get there. It never fires where no two devices come to hold one share (`DistinctRunsNeverTrip`), and even where
  it can, only valid signatures are stored (`FinishedSignaturesVerify`).
* A device that sends consumed nonces again takes the cached window back, and they are sent to it a second time:
  `CoordinatorSent.NextSessionOverlaps` gives the exact condition for one segment, `CoordinatorInstances.OverlappingRun` a
  run. The device refuses them, or repeats the very same signature (`NonceRuns.NoNonceSignsTwice`).
* Words whose scalar is not below the group order decode, but encode to different words:
  `ShareBackup.EncodeDecode` gives the condition; such words exist for every checksum function
  (`OversizedScalarDecodes`, `GroupOrderDecodesToZero`).
* The comment in `frost_backup/src/recovery.rs:199` says that subsets are tried from the largest to the
  smallest; the code tries the smallest first, and so does the model.
* Without a valid boot record the slot to upgrade is the running one: `Ota.NextIsNotActive`, `BlankIsUpgradedInPlace`.
* The enumerator of share combinations is not fused: after its first `None` it starts over behind the first
  choice (`Enumerators.Product.Next`). The search stops at the first `None`. An enumerator of combinations of
  size 0 yields nothing.

## Model

| member | source | states |
|---|---|---|
| AbWrite.AbSlot.Write | frostsnap_embedded/src/ab_write.rs:35-58 | Writing with power for any number of flash steps leaves exactly the cells of that prefix of the four steps, and says whether it finished |
| AbWrite.AbSlot.ReadValue | frostsnap_embedded/src/ab_write.rs:60-83 | Reading gives the value of the copy with the higher index, the first copy on a tie |
| AbWrite.InterruptedWrite | frostsnap_embedded/src/ab_write.rs:35-81 | Stopping after any prefix of the steps leaves a readable pair: the new value from the second step on, the old one before; the newest index goes up by one or stays |
| AbWrite.InterruptedCells | frostsnap_embedded/src/ab_write.rs:35-58 | Each copy after a cut write holds the new value, or what it held before, or nothing; a complete write leaves the new value in both |
| AbWrite.RunReadsLastCommitted | frostsnap_embedded/src/ab_write.rs:35-81 | Over any run of cut writes, reading gives the last value that was committed, and the index has grown by the number of commits, up to the end of the 32-bit range |
| NonceStream.ExtendWith | frostsnap_core/src/nonce_stream.rs:59-111 | For any two windows, the loops that push nonces before and behind compute the union window as a value, with the same errors and the same panics, a window of our own that runs past 32 bits included |
| NonceStream.ExtendOutcome | frostsnap_core/src/nonce_stream.rs:59-111 | A window that fits panics for exactly one family of others, one that does not fit exactly when it has to be merged; otherwise connected windows give the union, own nonces first, and unconnected ones the longer |
| NonceStream.ExtendIsUnionWindow | frostsnap_core/src/nonce_stream.rs:59-111 | Connected windows of one nonce stream merge to exactly the window of that stream over the union of their indices, without error |
| NonceStream.MergeOrderIrrelevant | frostsnap_core/src/nonce_stream.rs:59-120 | Two orders of arrival in which everything connects give the same window |
| NonceStream.DeleteUpTo | frostsnap_core/src/nonce_stream.rs:46-57 | Consuming keeps every later index with its nonce, drops the earlier ones, and reports a change exactly when the index moves |
| NonceStream.DeletedIsWindow | frostsnap_core/src/nonce_stream.rs:46-57 | Inside the window, consuming leaves a window of the same stream with the same end |
| DeviceNonces.RatchetComposes | frostsnap_core/src/device_nonces.rs:426-464 | Ratcheting a+b steps is ratcheting a steps and then b from there, so a stored later state continues the same stream |
| DeviceNonces.NonceIter.Next | frostsnap_core/src/device_nonces.rs:426-464 | One step yields the index, the secret nonce of that index and the next material, and nothing at the last 32-bit index |
| DeviceNonces.NonceIter.Skip | frostsnap_core/src/device_nonces.rs:426-464 | Skipping n steps ratchets n times, or to the end of the range |
| DeviceNonces.NonceJob.DoWork | frostsnap_core/src/device_nonces.rs:31-71 | One unit ratchets once, publishes the nonce if it is past the indices to skip, and reports whether the job is finished |
| DeviceNonces.NonceJob.RunUntilFinished | frostsnap_core/src/device_nonces.rs:73-76 | Running to the end is doing exactly the remaining number of units |
| DeviceNonces.JobPublishesStream | frostsnap_core/src/device_nonces.rs:426-500 | However the work is sliced, what a job has published are the public nonces of the secrets that depend only on the first seed and the index |
| DeviceNonces.FinishedIsWindow | frostsnap_core/src/device_nonces.rs:20-93 | A finished job's segment is the window of the seed's stream of the length asked for |
| DeviceNonces.NonceJobBatch.DoWork | frostsnap_core/src/device_nonces.rs:109-119 | One unit works on the current job only and moves on when that is finished |
| DeviceNonces.BatchPublishes | frostsnap_core/src/device_nonces.rs:95-139 | A batch has every job before the current one finished and every job publishing its own stream, and finishes after exactly as many calls as the jobs need |
| NonceSlots.PlanSigning | frostsnap_core/src/device_nonces.rs:223-293 | The signing loop ends in the cached record, the refusal for a used index, the panics for nothing to sign or a range past 32 bits, or the record behind the last nonce used |
| NonceSlots.SignItems | frostsnap_core/src/device_nonces.rs:260-281 | Item k is signed with the secret at start+k, and what is kept is the material behind the last one |
| NonceSlots.SharesFromSeed | frostsnap_core/src/device_nonces.rs:426-464 | Shares made from a record further along the stream are the shares made from the stream's first seed |
| NonceSlots.SignGuaranteeingNoncesDestroyed | frostsnap_core/src/device_nonces.rs:223-313 | Signing writes the record, reads it back and releases the shares in it, or refuses, panics or loses power, leaving exactly the cells of the steps that were carried out |
| NonceSlots.ReleasedMeansDestroyed | frostsnap_core/src/device_nonces.rs:240-313 | When shares are released, on the fresh and on the cached path, both copies hold one record with those shares and an index behind every nonce they used |
| NonceAnswers.ReleasedExactly | frostsnap_core/src/device_nonces.rs:223-313 | Shares are released exactly if they are on flash for this session, or the first index is not behind the record and there are items that fit, and the slot can be written in full, and the job for new nonces is in range; a request is refused exactly if nothing is stored for it and its first index is used; it is cut short exactly if it could be served and the supply fails |
| NonceAnswers.ReleasedShares | frostsnap_core/src/device_nonces.rs:240-293 | The shares released are those on flash for the session if there are any, and otherwise share k is made with the secret that the seed has at the k-th index from the one asked for |
| NonceAnswers.ServedRecord | frostsnap_core/src/device_nonces.rs:283-299 | From the second flash step on the record has the session with its shares, stands behind the last nonce used, and is the newest use; stored shares are left as they are |
| NonceAnswers.SigningTouchesOneSlot | frostsnap_core/src/device_nonces.rs:335-357 | A stream without a slot is refused with nothing changed; otherwise at most the stream's slot changes, and the clock moves on when shares are released |
| NonceAnswers.RepeatIsReleased | frostsnap_core/src/device_nonces.rs:240-258 | A request that could be served and reached its second flash step: whatever cut it short, and after restarts and signing on other streams, the same request with power gets its shares, or stops exactly where the job is out of range |
| NonceAnswers.RepeatIsReleasedInRuns | frostsnap_core/src/device_nonces.rs:240-258 | The same in every run of the device, the shares being those of a seed the stream was initialised with |
| NonceSlots.AbSlots.constructor | frostsnap_core/src/device_nonces.rs:323-333 | The clock restarts from the newest use on flash |
| NonceSlots.AbSlots.Choose | frostsnap_core/src/device_nonces.rs:364-401 | The scan takes the slot of the stream, else the first empty one before it, else the first one with the lowest last use |
| NonceSlots.ChoiceIsUnique | frostsnap_core/src/device_nonces.rs:364-401 | That rule names one slot |
| NonceSlots.AbSlots.GetOrCreate | frostsnap_core/src/device_nonces.rs:359-401 | Opening a stream changes at most the chosen slot, to an initial record or a prefix of writing it, and leaves a found slot as it is |
| NonceSlots.AbSlots.Sign | frostsnap_core/src/device_nonces.rs:335-357 | Signing goes to the slot of the stream, touches no other, and moves the clock only if shares were released |
| NonceRuns.StepErases | frostsnap_core/src/device_nonces.rs:223-401 | The history does not disturb the device: its flash and clock step as they do without it |
| NonceRuns.StepRecords | frostsnap_core/src/device_nonces.rs:223-313 | Every outcome in which the device releases shares adds one release with those shares, naming a signing of the requested session and stream; a signing is added only for a request, as asked |
| NonceRuns.RunErases | frostsnap_core/src/device_nonces.rs:223-401 | The same for flash and clock over whole runs |
| NonceRuns.ReleasesAreComplete | frostsnap_core/src/device_nonces.rs:223-313 | In every run of the device the history has exactly one release for each event that released shares, in order and with those shares |
| NonceRuns.InitsAreComplete | frostsnap_core/src/device_nonces.rs:190-200 | In every run of the device the history has exactly the initialisations that took effect on flash, with their seeds |
| NonceRuns.RunKeepsInv | frostsnap_core/src/device_nonces.rs:190-401 | In every run every copy on flash descends from the seed of its initialisation and lies behind everything that initialisation released |
| NonceRuns.NoNonceSignsTwice | frostsnap_core/src/device_nonces.rs:223-313 | Over any run of the device with any openings, signings, restarts and power failures between flash steps: the shares an event releases are those of a signing that was asked for on the stream it names, made with the secrets of one initialisation of that stream at its indices, and two events whose signings used one index of one initialisation released the same signing with the same shares |
| NonceRuns.NoCopyKeepsReleasedSeed | frostsnap_core/src/device_nonces.rs:240-313 | In every run of the device each copy on flash, current or stale, belongs to one initialisation of its stream, on whose seed it stands, behind every index of it that a released signing used |
| NonceRuns.JobsFollowTheirSeed | frostsnap_core/src/device_nonces.rs:203-217 | After every run of the device the job made from a slot publishes the nonces of one seed that its stream was initialised with, however its work is sliced |
| NonceSlotOrder.RunKeepsOrder | frostsnap_core/src/device_nonces.rs:364-401 | In every run from blank flash occupied slots form a prefix and hold pairwise distinct streams |
| NonceSlotOrder.RunKeepsClock | frostsnap_core/src/device_nonces.rs:323-362 | In every run the clock is not behind any use on flash and has not advanced by more than the number of events |
| NonceSlotOrder.NewStreamsSurvive | frostsnap_core/src/device_nonces.rs:364-401 | Opening up to as many new streams in a row as there are slots leaves every one of them in place |
| NonceSlotOrder.MatchedStreamSurvives | frostsnap_core/src/device_nonces.rs:364-401 | A stream that was found is lost to one next new stream if and only if that one is absent and its own slot is the least recently used |
| NonceSlotOrder.MatchedStreamCanBeLost | frostsnap_core/src/device.rs:275-298 | An instance with two slots in which one message loses a stream it has just matched |
| NonceMessages.OpenNonceStreams | frostsnap_core/src/device.rs:275-314 | The message loop, known streams first and no more than there are slots, opens each served stream and reconciles it at once, collecting the jobs, or stops with what is on flash by then: at a power failure, a slot written too often, or a job out of range |
| NonceMessages.AnsweredIsRun | frostsnap_core/src/device.rs:275-298 | A message that is answered leaves the device as opening its streams one by one does |
| NonceMessages.ReconcilePanics | frostsnap_core/src/device_nonces.rs:203-217 | Reconciling panics exactly if the job would reach the last 32-bit index: a batch from where the slot stands, or the index u32::MAX named by the coordinator |
| NonceMessages.MessageHaltsExactly | frostsnap_core/src/device.rs:275-314 | With power and slots that are not worn out a message stops the device if and only if it names a stream for which, by its turn, reconciling panics |
| NonceReplies.ServedInOrder | frostsnap_core/src/device.rs:279-289 | As many streams are served as there are slots, known ones first and then new ones, each in the order of the message, and none that is left out goes before one that is served |
| NonceReplies.JobsAreCalledFor | frostsnap_core/src/device.rs:290-314 | The jobs that come back are exactly those that the served streams call for, in their order |
| NonceMessages.MessageSurvivors | frostsnap_core/src/device.rs:275-298 | After a whole message every new stream it served has a slot, and a stream that had one before still has it if and only if at least as many slots go before its own as the message served new streams |
| NonceMessages.MatchedStreamIsLostInARun | frostsnap_core/src/device.rs:275-298 | An instance from blank flash: two openings, then one message that finds a stream and evicts it |
| CoordNonces.NonceCache.ExtendSegment | frostsnap_core/src/coord_nonces.rs:10-26 | Extending the nested map in place merges into the one entry, creates it if missing even when nothing is recorded, and leaves the others |
| CoordNonces.NonceCache.CheckExtends | frostsnap_core/src/coord_nonces.rs:28-40 | Where there is a cached window the check refuses exactly what extending would refuse, and panics where it would; where there is none it lets everything through; it changes nothing |
| CoordNonces.NonceCache.SelectFor | frostsnap_core/src/coord_nonces.rs:50-68 | For one device, the loop selects the first n nonces of the first free stream in id order that has at least n, or reports the most that any free stream has |
| CoordNonces.NonceCache.NewSigningSession | frostsnap_core/src/coord_nonces.rs:42-79 | A selection for every device, or the error for the first device in order that has none |
| CoordNonces.SelectionIsPrefix | frostsnap_core/src/coord_nonces.rs:42-79 | What is selected is the first n nonces of a cached window that no active session holds |
| CoordNonces.SelectionIsUnique | frostsnap_core/src/coord_nonces.rs:42-79 | The rule determines the selection |
| CoordNonces.NonceCache.NoncesAvailable | frostsnap_core/src/coord_nonces.rs:102-120 | Exactly the free streams with nonces are reported, with how many |
| CoordNonces.NonceCache.OpeningRequests | frostsnap_core/src/coord_nonces.rs:122-152 | As many new streams as are missing, under the ids drawn, then every cached stream once, in id order, with where it stands |
| CoordinatorAnswers.RequestTellsWindows | frostsnap_core/src/coord_nonces.rs:122-152 | The request begins with as many new streams as are missing, from nothing, and then names every cached window with its own start and its own number of nonces |
| CoordNonces.NonceCache.Consume | frostsnap_core/src/coord_nonces.rs:81-100 | Consuming moves one window along and no other; it panics only for a window already past the point |
| Coordinator.FrostCoordinator.Mutate | frostsnap_core/src/coordinator.rs:170-178 | A mutation is applied and appended to the log exactly when it was reduced to something |
| Coordinator.FrostCoordinator.ApplyMutation | frostsnap_core/src/coordinator.rs:180-420 | Each signing arm, and each key arm through its own method, makes the whole new state that the specification of mutations gives |
| Coordinator.FrostCoordinator.ApplyKeyMutation | frostsnap_core/src/coordinator.rs:202-306 | The arms for new keys, access structures and shares and for deleted shares, with their unrecorded cases |
| Coordinator.FrostCoordinator.ApplyClose | frostsnap_core/src/coordinator.rs:372-407 | Closing removes the session from map and order, consumes what was sent to its devices and keeps the finished session if there are signatures |
| Coordinator.FrostCoordinator.ApplyDeleteKey | frostsnap_core/src/coordinator.rs:308-323 | Deleting a key closes every session of that key, one nested mutation each |
| Coordinator.FrostCoordinator.StartSigning | frostsnap_core/src/coordinator.rs:1069-1193 | Starting is refused, changing nothing, with the error of the first check that fails in the source's order, the first device without a share named; otherwise it opens one session over a selection that avoids every stream in use, its items over the nonces of each party, or fails for lack of nonces, or panics if the library does not open a session over them |
| Coordinator.RefusalIsUnique | frostsnap_core/src/coordinator.rs:1076-1114 | A request is refused for one reason |
| CoordinatorAnswers.StartedAsAsked | frostsnap_core/src/coordinator.rs:1118-1193 | A session that is opened has one item for each signature; item k has message k, the key and threshold of the access structure, no shares yet, and for each share index that the devices hold the k-th nonce in the window of the last device that holds it; each device has the first nonces of a window of a stream that no session uses; nothing else changes |
| CoordinatorInstances.EachItemHasItsMessage | frostsnap_core/src/coordinator.rs:1141-1156 | An instance with two different messages: each item has its own |
| Coordinator.FrostCoordinator.RequestDeviceSign | frostsnap_core/src/coordinator.rs:1195-1243 | The nonces sent are the session's nonces for that device, and the sending is recorded; it panics, changing nothing, exactly when session, device, key, access structure or share is missing or the caller's key does not decrypt the root key |
| CoordinatorAnswers.AskingIsNoted | frostsnap_core/src/coordinator.rs:360-371 | Asking a device adds it to the devices asked and changes nothing else |
| Coordinator.FrostCoordinator.RecvNonceSegment | frostsnap_core/src/coordinator.rs:602-627 | A segment is accepted exactly if the check lets it through; it is then merged, and otherwise nothing changes |
| CoordinatorAnswers.SegmentIsMerged | frostsnap_core/src/coordinator.rs:602-627 | Afterwards the one window is what extending it gives, and every other is as it was |
| Coordinator.FrostCoordinator.RecvSignatureShares | frostsnap_core/src/coordinator.rs:867-954 | Shares are accepted exactly if their device holds a share of the key that is a party of every item and each of them verifies; they are stored, a segment that came with them is merged, and the session is completed exactly if that makes up the count |
| Coordinator.FrostCoordinator.CompleteSignSession | frostsnap_core/src/coordinator.rs:1420-1467 | Once as many devices have answered for every item as there are share indices, the shares of each item are combined in device order; the session is closed with the signatures if all of them verify, and otherwise the assertion fires |
| CoordinatorAnswers.AnswersAreFiled | frostsnap_core/src/coordinator.rs:929-954 | Share k of an accepted answer is filed under the device for item k and a segment that came with it is merged; below the count the session goes on with that, at the count it is among the finished ones, with one signature for each item, made of all its shares in the order of the devices, no longer among the active ones, and what it took is consumed |
| CoordinatorAnswers.ClosingConsumes | frostsnap_core/src/coordinator.rs:372-407 | Closing moves the windows of the devices that were asked past every nonce the session took, keeps all later nonces, and changes no other window and no other session |
| Coordinator.FrostCoordinator.DeleteShareOf | frostsnap_core/src/coordinator.rs:1372-1405 | Deleting is refused exactly when an active session over that access structure has asked or heard from the device |
| CoordinatorAnswers.DeletedShareIsGone | frostsnap_core/src/coordinator.rs:1372-1405 | After deleting, the device has no share in the access structure exactly if it had none or no active session over it has asked or heard from the device |
| CoordinatorAnswers.KeyMutationIs | frostsnap_core/src/coordinator.rs:215-306 | Looked up one by one, an access structure or a share is there afterwards exactly as the mutation names it or as it was, a new access structure starts without shares, and a mutation is recorded exactly if it changes something |
| CoordinatorAnswers.NewKeyIs | frostsnap_core/src/coordinator.rs:181-213 | A new key is added as given behind the others, and one that is there stays |
| CoordinatorAnswers.DeletedKeyIsGone | frostsnap_core/src/coordinator.rs:308-323 | Deleting a key takes away the key and exactly its sessions |
| CoordinatorAnswers.ForgottenIsGone | frostsnap_core/src/coordinator.rs:1476-1485 | Forgetting takes away one finished session and nothing else |
| CoordinatorRuns.StepKeepsInv | frostsnap_core/src/coordinator.rs:170-420 | One operation keeps the order lists in step with their maps, every active session's key and access structure, and the separation of streams |
| CoordinatorRuns.RunKeepsInv | frostsnap_core/src/coordinator.rs:170-420 | In every run `key_order` and `active_sign_session_order` enumerate their maps without duplicates, every active session's key and access structure exist, and no two active sessions hold one stream |
| CoordinatorReplay.ApplyAlike | frostsnap_core/src/coordinator.rs:180-420 | Two states that differ only by windows empty at index 0, and in which every session has its windows, stay so under every mutation that applies to one of them, which applies to the other too; a new session has to take its nonces from the cache |
| CoordinatorReplay.ApplyKeepsWindows | frostsnap_core/src/coordinator.rs:180-420 | A mutation adds to the cache exactly the stream its segment is about, and removes none |
| CoordinatorReplay.UnrecordedMutation | frostsnap_core/src/coord_nonces.rs:10-26 | A mutation changes the state unrecorded if and only if it is a segment without a window that is empty at index 0 or too long, and then by one window empty at index 0 |
| CoordinatorReplay.ReplayRebuilds | frostsnap_core/src/coordinator.rs:170-420 | In every run replaying the recorded mutations from empty succeeds and gives the state up to windows empty at index 0; it gives exactly the state if and only if every cached stream is named by a recorded segment |
| CoordinatorReplay.PhantomIsNotReplayed | frostsnap_core/src/coordinator.rs:325-339 | An instance of a run of one step whose log does not rebuild its state |
| CoordinatorReplay.PhantomIsMadeGood | frostsnap_core/src/coordinator.rs:325-339 | An instance of a run with an unrecorded segment whose log rebuilds its state, because a recorded one follows |
| CoordinatorReaders.ChecksAgree | frostsnap_core/src/coord_nonces.rs:28-40 | On two caches that differ by windows empty at index 0, `check_can_extend` agrees if and only if the segment fits 32 bits or both caches have the stream or neither |
| CoordinatorReaders.SelectionsAgree | frostsnap_core/src/coord_nonces.rs:42-79 | Choosing a positive number of nonces gives the same choices and the same errors on both |
| CoordinatorReaders.AvailableAgrees | frostsnap_core/src/coord_nonces.rs:102-120 | What is reported as available is the same on both |
| CoordinatorReaders.OpeningRequestsAgree | frostsnap_core/src/coord_nonces.rs:122-152 | With newly drawn ids the opening requests are the same if and only if the device has the same windows in both |
| CoordinatorReaders.ReadersCanDiffer | frostsnap_core/src/coordinator.rs:602-627 | At one state and its replayed state: a segment that does not fit is refused by one and not by the other, choosing no nonces succeeds in one only, and the opening requests differ |
| CoordinatorWindows.CoveredCloses | frostsnap_core/src/coordinator.rs:372-396 | Closing a session whose windows still cover it trips neither the assertion of `consume` nor the debug assertions of `delete_up_to` |
| CoordinatorWindows.ApplyKeepsGood | frostsnap_core/src/coordinator.rs:180-420 | Every mutation with connecting segments keeps every active session covered, the nested closes of a deleted key included |
| CoordinatorWindows.ConnectingRunsAreGood | frostsnap_core/src/coordinator.rs:372-396 | In every run with connecting segments every active session stays covered, and the next such operation panics if and only if it is a signing request whose own expectations fail, a start over nonces that the library does not accept, or an answer that makes up the count while some combined signature does not verify |
| CoordinatorSigning.BadCompletionLacksAParty | frostsnap_core/src/coordinator.rs:1420-1452 | If FROST keeps its promise, and nothing else makes a signature, the assertion fires exactly if the answer is accepted and makes up the count while for some item there are fewer parties than the threshold or no verified share of one of them |
| CoordinatorSigning.DistinctRunsNeverTrip | frostsnap_core/src/coordinator.rs:1420-1452 | If FROST keeps its promise: in every run with connecting segments in which no new share is one that another device holds or that replaces another, the next operation panics if and only if it is a signing request whose own expectations fail |
| CoordinatorSigning.FinishedSignaturesVerify | frostsnap_core/src/coordinator.rs:1420-1467 | In every run a session is stored as finished only with one valid signature for each item that it had while it was active |
| CoordinatorWindows.DisconnectedSegmentTripsClose | frostsnap_core/src/coord_nonces.rs:81-100 | After one more segment, closing a session that was covered panics if and only if the segment fits, is about the stream of a device that was sent its request, does not connect, is at least as long as the window and starts beyond what the session took |
| CoordinatorWindows.DisplacedSessionCannotBeCancelled | frostsnap_core/src/coordinator.rs:1469-1474 | The coordinator accepts such a segment, and cancelling the session then panics |
| CoordinatorInstances.DisconnectedRunTripsClose | frostsnap_core/src/coordinator.rs:170-420 | An instance: five operations from an empty coordinator after which a session cannot be cancelled |
| CoordinatorInstances.SharedShareTripsCompletion | frostsnap_core/src/coordinator.rs:1420-1452 | An instance of threshold 2: both selected devices hold one share, and unless the library refuses the session, one verified share is taken for enough and the assertion fires |
| CoordinatorInstances.ReplayedShareTripsCompletion | frostsnap_core/src/coordinator.rs:867-954 | An instance: a third device that holds the share of a selected one sends the selected one's answer again, and the assertion fires |
| CoordinatorInstances.EmptySegmentPanics | frostsnap_core/src/nonce_stream.rs:59-111 | An instance: a first nonce, then an empty segment at index 0, and the coordinator panics |
| CoordinatorInstances.OverlappingRun | frostsnap_core/src/coordinator.rs:1195-1243 | An instance: a session is sent and cancelled, its nonces are received again, and a second session is sent the same index |
| CoordinatorWindows.RequestPanicsWhenShareOrKeyIsGone | frostsnap_core/src/coordinator.rs:1195-1243 | Requesting a signature of a device of an active session panics if and only if its share is no longer in the access structure or the caller's key does not decrypt the root key |
| CoordinatorWindows.UnaskedShareCanBeDeleted | frostsnap_core/src/coordinator.rs:1372-1405 | The share of a device that was not asked can be deleted, and then requesting panics |
| CoordinatorSent.SentRangesAreDisjoint | frostsnap_core/src/coordinator.rs:1195-1243 | In every run in which received segments do not start below the cached window, the index ranges sent to one device on one stream by two sessions are disjoint and in order |
| CoordinatorSent.NextSessionOverlaps | frostsnap_core/src/coordinator.rs:1118-1126 | After a use and one more segment of its stream the next session on the stream starts behind the use unless the segment fits, starts below its end, and is merged or is at least as long as the window; if so, it uses an index again exactly if it reaches up to the use |
| NonceProtocol.MadeIsWindow | frostsnap_core/src/device_nonces.rs:203-217 | What a device makes about a stream, at any time of its life and asked about any state, is a window of the public nonces of the stream's seed |
| NonceProtocol.SigningJobIsMade | frostsnap_core/src/device_nonces.rs:309-312 | The job that comes with released shares is one of these |
| NonceProtocol.MessageJobsAreMade | frostsnap_core/src/device.rs:290-298 | And so is every job of a request to open streams |
| NonceProtocol.AnswerConnects | frostsnap_core/src/device_nonces.rs:203-217 | A device asked about the coordinator's window has nothing to do exactly if it stands at its start and the window is long enough; otherwise its answer connects to the window exactly if the device has not passed the end of it or, before the start of a window that is too short, a batch gets there |
| NonceProtocol.WindowsFollowTheSeed | frostsnap_core/src/coordinator.rs:602-627 | Over any run of a coordinator whose segments come from devices running from blank flash, lost, repeated, reordered and late ones included, what is cached of a stream that its device initialised once is a window of the public nonces of that seed |
| NonceProtocol.SessionNoncesMatch | frostsnap_core/src/coordinator.rs:1127-1161 | In such runs, as long as a session is active, item k has for the party of a device the public nonce of the secret at the place the device is told plus k |
| NonceProtocol.SharesUseTheSessionsNonces | frostsnap_core/src/device_nonces.rs:260-281 | So whenever the device releases shares of a signing from that place, the share of item k was made with a secret whose public nonce is the one the session has for item k |
| GenuineCheck.GenuineCheck.Connected | frostsnap_coordinator/src/genuine_check.rs:106-138 | A new connection starts unproven, asks for the identity over the digest on file or for the factory attestation, and tells its status |
| GenuineCheck.GenuineCheck.Recv | frostsnap_coordinator/src/genuine_check.rs:147-248 | Every pair of outstanding request and message leads to the state, the reply and the updates of the protocol, whatever order the superseded ids come in |
| GenuineCheck.GenuineCheck.Status | frostsnap_coordinator/src/genuine_check.rs:250-261 | The status of a connection |
| GenuineCheck.GenuineCheck.ApplyMutation | frostsnap_coordinator/src/genuine_check.rs:277-301 | Inserting or removing a record, and whether that changed anything; removal ends what the connection has proved |
| GenuineCheck.GenuineCheck.Supersede | frostsnap_coordinator/src/genuine_check.rs:313-333 | Every other record that names the same DS key is removed, each with its update |
| GenuineRuns.NextKeepsInv | frostsnap_coordinator/src/genuine_check.rs:106-340 | One input keeps records verified and every session justified by its conversation |
| GenuineRuns.NextKeepsDistinct | frostsnap_coordinator/src/genuine_check.rs:220-333 | One input keeps DS keys pairwise distinct |
| GenuineRuns.GenuineMeansProved | frostsnap_coordinator/src/genuine_check.rs:147-260 | In every run from any loaded table a genuine status means that in the current connection the device's signature verified over a challenge sent in it and the digest of the attestation on file whose certificate is shown |
| GenuineAnswers.ConnectedIsAsked | frostsnap_coordinator/src/genuine_check.rs:106-138 | A device that connects is unverified, and says so in an event; one on file is asked for its identity over the digest of that record, another for its factory attestation, one without support for nothing |
| GenuineAnswers.AttestedIsAskedForIdentity | frostsnap_coordinator/src/genuine_check.rs:160-196 | A factory attestation of the device itself that verifies under the challenge sent becomes pending, and the device is asked for its identity over the digest of just that |
| GenuineAnswers.VerifiedIdentityIsGenuine | frostsnap_coordinator/src/genuine_check.rs:213-248 | An identity attestation that verifies over what was asked makes the device genuine with the certificate of the pending record, or of the one on file; the record is on file, and the last event says so |
| GenuineAnswers.OthersAreSuperseded | frostsnap_coordinator/src/genuine_check.rs:313-333 | Then every other device on file under the same DS key loses its record and its status, and the others keep theirs |
| GenuineAnswers.OtherMessages | frostsnap_coordinator/src/genuine_check.rs:147-248 | Any other message changes no record, no status and no event, and gets the error, the repeated request or the silence that the protocol has for it |
| GenuineAnswers.AnsweringMakesGenuine | frostsnap_coordinator/src/genuine_check.rs:106-260 | In every run a device that connects and answers what it is asked is genuine after two answers, after one if it was on file, and stays so until it disconnects, connects again or another device proves itself under the same DS key |
| GenuineRuns.StoreIsTheRecords | frostsnap_coordinator/src/genuine_check.rs:277-333 | In every run from any table each record is about the id it is filed under and loading the table as the updates leave it gives exactly the records; nothing else is in the table if all its first rows verified, and DS keys stay pairwise distinct if the loaded ones were |
| GenuineRuns.RestartsKeepTheStore | frostsnap_coordinator/src/genuine_check.rs:365-430 | From an empty table through any number of runs, each loading what the last one left, all rows verify under their own id and DS keys are pairwise distinct |
| GenuineRuns.EventsAreComplete | frostsnap_coordinator/src/genuine_check.rs:335-340 | In every run from any loaded table the last event about a connected device tells its status |
| GenuineRuns.Load | frostsnap_coordinator/src/genuine_check.rs:365-404 | Loading keeps exactly the rows that verify again under their own challenge |
| Enumerators.AdvanceIsNext | frost_backup/src/recovery.rs:253-296 | Raising the rightmost position that can be raised and packing the rest behind it gives the next increasing tuple in lexicographic order |
| Enumerators.CountIsNext | frost_backup/src/recovery.rs:298-360 | Counting with carry gives the next choice in lexicographic order |
| Enumerators.EachExactlyOnce | frost_backup/src/recovery.rs:253-360 | Given out in order with nothing left out means everything, each exactly once |
| Enumerators.Combinations.Next | frost_backup/src/recovery.rs:253-296 | Each call gives the next k-tuple of positions; `None` only when all have been given |
| Enumerators.Product.Next | frost_backup/src/recovery.rs:298-360 | Each call gives the next choice of one element per list; the first `None` comes exactly when all have been given, and after it a pass starts behind the first choice |
| Recovery.TrySelections | frost_backup/src/recovery.rs:204-238 | For one combination of indices, every choice of shares has been tried, or the best possible match was found |
| Recovery.TrySize | frost_backup/src/recovery.rs:200-239 | The same for every combination of a size |
| Recovery.FindValidSubset | frost_backup/src/recovery.rs:168-250 | A key is returned if and only if some choice of one share per index at an allowed size passes; it matches the most bits, or all of the fingerprint; and the set is exactly the images on its polynomial |
| Bits.SetBitSetsBit | frost_backup/src/share_backup.rs:52-54 | Setting a bit changes that bit and no other |
| ShareBackup.ToWordIndices | frost_backup/src/share_backup.rs:142-182 | The accumulator emits the 11-bit slices of scalar, polynomial checksum and words checksum |
| ShareBackup.EncodingIsUnique | frost_backup/src/share_backup.rs:142-182 | No other 25 indices spell the backup |
| ShareBackup.CollectBits | frost_backup/src/share_backup.rs:87-114 | The bit loop reads the first 256 bits, the next 8 and the last 11 of the words |
| ShareBackup.FromWords | frost_backup/src/share_backup.rs:76-140 | The first unknown word is reported; otherwise the bits decide between the backup, a failed checksum and a zero index |
| ShareBackup.DecodingIs | frost_backup/src/share_backup.rs:115-140 | The words checksum is looked at before the index; a backup comes out exactly if the one matches and the other is not zero, with the reduced first 256 bits and the next 8 |
| ShareBackup.ToWords | frost_backup/src/share_backup.rs:185-195 | The words are in the list and spell the backup |
| ShareBackup.DecodeEncode | frost_backup/src/share_backup.rs:76-182 | Decoding the words of any backup with a canonical scalar, an 8-bit checksum and a non-zero 32-bit index gives it back |
| ShareBackup.EncodeDecode | frost_backup/src/share_backup.rs:76-182 | Encoding what words decode to gives the same bits if and only if their first 256 bits are below the group order |
| ShareBackup.OversizedScalarDecodes | frost_backup/src/share_backup.rs:76-140 | For every checksum function, every 256-bit value at or above the group order is completed to bits that decode to a backup with other words |
| ShareBackup.GroupOrderDecodesToZero | frost_backup/src/share_backup.rs:76-140 | An instance: 25 words with the group order as scalar decode to the backup of the zero scalar and are not its words |
| Ota.NextIsNotActive | device/src/ota.rs:104-148 | The slot to upgrade differs from the running one if and only if some boot record is valid |
| Ota.BlankIsUpgradedInPlace | device/src/ota.rs:104-195 | An instance: with blank boot records the upgrade goes to the running slot, which is still the running one after the switch |
| Ota.SwitchIsAtomic | device/src/ota.rs:155-195 | The switch takes effect with its last flash step and not before, and never touches the record of the running slot |
| Ota.SwitchesAreCounted | device/src/ota.rs:104-195 | Over any run of switches cut short anywhere, the active slot and its sequence number count the completed ones |
| Ota.Transfer.TakeByte | device/src/ota.rs:396-456 | One byte is buffered and forwarded; a full or last sector is programmed with the image slice padded with 0xff |
| Ota.Transfer.Turn | device/src/ota.rs:396-456 | One turn takes a byte exactly when downstream is ready and one has arrived, and signals upstream at most once per chunk |
| Ota.Transfer.Run | device/src/ota.rs:396-456 | For any interleaving, a finished transfer has every sector equal to its padded slice, the rest of the slot untouched, the same bytes forwarded in order and one ready signal per chunk, unless a single-byte image ends it in the first turn; and with input at every turn it reaches as far as there are turns |
| Ota.Preparation.Poll | device/src/ota.rs:264-332 | Each poll erases one sector, and the device says that it is ready exactly when all are erased |
| Ota.PrepareSlot | device/src/ota.rs:264-345 | After so many polls exactly that many sectors are erased and the others untouched, and the device is ready exactly when that is all of them |
| Ota.Upgrade | device/src/ota.rs:197-490 | However an upgrade ends, during erasing, transfer or switching, the running slot is untouched. It is committed if and only if the polls erase the slot, the transfer ends, the slot as written is accepted, the sequence number fits and both steps of the switch complete; then the slot is active under the next number. It is rejected if and only if it got as far as the verdict and was refused. The transfer ends only with the slot holding the image and nothing else, and does end if everything is prompt and the image fits |
| Ota.PromptUpgradeCommits | device/src/ota.rs:197-490 | An acceptable image that fits, with enough polls, a prompt transfer and an uncut switch, is what runs afterwards |
| UsbSerial.UsbSerialManager.Disconnect | frostsnap_coordinator/src/usb_serial_manager.rs:100-121 | The devices of a port, and no others, leave both maps and the registered set, in list order |
| UsbAnswers.PortLeaves | frostsnap_coordinator/src/usb_serial_manager.rs:100-121 | Exactly the devices of the port leave, with one change each, the first to connect first |
| UsbSerial.UsbSerialManager.HandleAnnounce | frostsnap_coordinator/src/usb_serial_manager.rs:522-569 | A known id leaves its old port's list first, then it is appended to the new one, with the changes for both |
| UsbAnswers.AnnouncedIsLast | frostsnap_coordinator/src/usb_serial_manager.rs:522-569 | The announcer is on the port it came through, last on its list and not registered, disconnected first if it was connected; nobody else is affected |
| UsbSerial.UsbSerialManager.DisconnectDownstream | frostsnap_coordinator/src/usb_serial_manager.rs:322-342 | Exactly the devices listed behind the sender leave, last first |
| UsbAnswers.DownstreamLeaves | frostsnap_coordinator/src/usb_serial_manager.rs:322-342 | Exactly the devices that connected on that port after the sender leave, with one change each, the last to connect first; the others keep port and registration |
| UsbAnswers.SenderStays | frostsnap_coordinator/src/usb_serial_manager.rs:322-342 | The sender keeps its port and its registration |
| UsbSerial.UsbSerialManager.RegisterDevices | frostsnap_coordinator/src/usb_serial_manager.rs:412-429 | Exactly the connected, named and unregistered devices are registered, each once, in any order |
| UsbAnswers.RegistrationIsComplete | frostsnap_coordinator/src/usb_serial_manager.rs:412-429 | Afterwards every connected device with a name is registered, with one change for each that was not, and nothing else has changed |
| UsbSerial.UsbSerialManager.HandleFrame | frostsnap_coordinator/src/usb_serial_manager.rs:294-410 | What each kind of frame does to the registry and which changes it emits |
| UsbAnswers.OthersOnlyTell | frostsnap_coordinator/src/usb_serial_manager.rs:294-410 | A frame that is no announcement and cuts nothing off leaves the registry alone and emits at most its one change |
| UsbSerial.UsbSerialManager.PollPorts | frostsnap_coordinator/src/usb_serial_manager.rs:135-520 | One poll is lost ports, then the frames, then registration, then failed ports, and returns their changes in that order; after it every connected device with a name is registered |
| UsbSerial.UsbSerialManager.ActivePorts | frostsnap_coordinator/src/usb_serial_manager.rs:123-133 | A port is active if and only if its list has a registered device |
| UsbSerial.ResultKeepsInv | frostsnap_coordinator/src/usb_serial_manager.rs:135-569 | Whatever a poll carries out, its changes continue the log so that the log still tells the registry |
| UsbSerial.RegistryAgrees | frostsnap_coordinator/src/usb_serial_manager.rs:522-569 | In every run a port lists exactly the devices mapped to it, each once, in the order they last connected; registered devices are connected; and following the changes always makes sense and ends in exactly the connected devices |
| UsbSerial.Alternates | frostsnap_coordinator/src/usb_serial_manager.rs:522-569 | The connections and disconnections of each device alternate, and it is connected if and only if their number is odd |
| UsbSerial.RegistersOncePerConnection | frostsnap_coordinator/src/usb_serial_manager.rs:412-429 | Between two registrations of a device it has disconnected |
| UsbGenuine.GenuineOnThisConnection | frostsnapp/rust/src/coordinator.rs:212-310 | With every change fed to the genuine check, a device has a session if and only if it is on a port, and one shown as genuine proved it by a message that came since it last announced itself |

## Left out

- Flash: an erase and the program of a copy are single steps; programming torn inside a sector, and a programmed copy that does not decode, are not modelled.
- BIP39: the word list is any list of distinct words and the binary search is a lookup in it; reducing 32 bytes to a scalar is the remainder by the group order.
- Bit operations of the encoder are written as division, remainder and multiplication by powers of two; the bytes of the transfer are bit-vectors.
- `recover_secret`, `extract_secret`, `generate_shares` and the two checksums rest on field arithmetic that is not part of this model; the words checksum is any function into 11 bits.
- Restoration mutations and key generation rest on other files and on cryptographic protocols.
- CoordinatorRuns.RunKeepsInv: session ids are taken not to repeat among active sessions, because they are hashes of randomised requests.
- CoordinatorSent.SentRangesAreDisjoint: holds for segments that do not start below the cached window; the code accepts others from a device (`OverlappingRun`).
- CoordinatorSigning.DistinctRunsNeverTrip: the promise of FROST is an assumption, `Correct`; its arithmetic is not modelled. What its library does with fewer parties than the threshold is the `opens` of a `Frost` value.
- NonceProtocol.WindowsFollowTheSeed: is about streams that their device initialised once; a coordinator that gets segments of two seeds under one stream id can mix them.
- CoordinatorWindows.ConnectingRunsAreGood: a symmetric key is known by which encrypted root keys it decrypts; decryption itself is not modelled.
- CoordinatorReaders.OpeningRequestsAgree: the ids that are drawn are taken to be new to both caches, because they are random.
- NonceStream.MergeOrderIrrelevant: speaks of orders in which every segment connects, because otherwise the longer window replaces the other.
- NonceSlotOrder.NewStreamsSurvive: stays within the 32-bit range of the clock, and of the copies' indices.
- NonceMessages.MessageSurvivors: the same; and it is about messages that are served to their end, where `OpenNonceStreams` says what an early end leaves.
- NonceRuns.NoNonceSignsTwice: counts a stream that is initialised again as a new one; seeds are arbitrary, so fresh seeds give different nonces only as far as the HMAC does.
- Ota.Transfer.Run: counts bytes without the 32-bit limit of the source's counter and takes upstream and downstream as one tick per turn; timing and baud rates are not modelled.
- Ota.Upgrade: takes the verdict on the written image as a function of what the slot holds; digests and signatures of firmware are not modelled.
- Ota.NextIsNotActive: an erased boot record is one whose checksum does not match.
- UsbSerial.UsbSerialManager.PollPorts: leaves out opening ports, magic bytes, timeouts and the outbox, among it the acknowledgement of an announcement.
- GenuineRuns.StoreIsTheRecords: the table is a map from ids to attestations; SQL and migrations are left out.
- Device ids, stream ids and session ids of the coordinator are natural numbers, in place of byte strings in their order.
- Screens, settings, drivers, wallets, chain access and serial framing are not part of this model.
