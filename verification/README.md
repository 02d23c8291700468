# M5Daylog protocols, modelled and proved in Dafny

M5Daylog is the firmware of a wearable recorder and the PC tool that copies its recordings. This
project models the parts of both that must survive races, resets and torn writes, and proves what
they promise. `dafny verify dfyconfig.toml` checks everything.

| files | what they model |
|---|---|
| `SessionGate`, `SessionGateSafety`, `SessionGateRest`, `SessionGateAlone`, `SessionGateAdmission`, `SessionGateOpening` | the lock-free admission gate of the serial protocol, one step per atomic operation |
| `ManifestText`, `TextFormat`, `ManifestFormat`, `ManifestChecks`, `ManifestCodec`, `Joining`, `ManifestEntries`, `ManifestSnapshot`, `ManifestReader`, `ManifestHeader`, `ManifestExtends`, `ManifestUpsert`, `ManifestWording` | the canonical manifest: printed form, recogniser, prefix check, append on bytes |
| `ManifestStore`, `ManifestIndex` | the two-snapshot commit and recovery on the card; the boot scan that proves the index complete |
| `Ownership`, `CdcTransport` | who owns the card across callbacks and resets; the response writer that ends in a release |
| `Sha256`, `Sha256Bits`, `Sha256Constants`, `Sha256Example`, `Sha256Stream`, `Sha256Hex`, `PcmPipeline`, `LineFramer`, `Utf8` | streaming forms that refine specifications over whole sequences |
| `Calendar`, `CivilDays`, `RtcClock`, `RtcTimestamp`, `RtcText` | civil dates, the clock chip's registers, timestamp texts |
| `RtcEvent`, `WavFormat`, `WavPart`, `WavRecovery` | the exactly-once event line; recordings written, interrupted and recovered |
| `LibrarySync` | the PC tool's verified, no-clobber, convergent copy |
| `Wrappers`, `Bytes`, `Audio` | the option type, bytes and the 32-bit range, the audio format |

Objects whose fields the source changes are classes, algorithms with loops are methods proved
against functions, and pure code is functions and lemmas. The gate is a state machine on values,
because its threads interleave between any two atomic operations.

Conventions of the models:

- A `calm` parameter of a method says that no file operation fails and power stays on; otherwise
  every operation may fail and power may be cut between any two of them. Where the outcome depends
  on which operation failed, the results are parameters (`Works`, `Faults`, `readable`). Rename is atomic and, on
  the card, refuses an existing target. Bytes written but not yet synced are arbitrary in a
  manifest's tmp file, a bytewise mix of old and new in a header, and a prefix in an appended line.
- Atomic operations of the gate are sequentially consistent, there is one resetter at a time, fewer
  than 2^29-1 callbacks run at once, and the generation does not wrap.
- A failed write of the durable lifecycle byte may or may not have stored the value.
- Results of drivers, the clock, the scheduler and the JSON reader are inputs.
- A card byte is a `char` in the manifest models; no check there looks at bytes above 0x7f.

What the code does differently from what is said about it:

- The gate's header says that open answers false while stale receive data still needs a drain.
  `OpenAnswersTrueWithStaleData` is a run in which it answers true. `OpenKeepsPromiseExactly` gives
  the exact condition for an open that runs alone, `OpenTrueWithPending` and `OpenAgainWithPending`
  the condition in any interleaving. The fence itself (`StaleFence`) holds in every run: such data is never
  admitted.
- The event recovery says that the pending mark is cleared after the event is durable. That holds
  exactly if no attempt since the last reset appended the line and failed its sync
  (`ClearedDurablyExactly`); a retry that finds the unsynced line clears the mark with nothing
  durable (`ClearedThenLost`).
- The recovery header says both that unreadable files are quarantined and that an I/O failure leaves
  the interrupted file in place for a later boot. A failed size look-up or a short header read
  quarantines an intact recording (`ReadFaultHolds`), and no later boot looks for it there.
  `HeldExactly` gives the exact condition, and its bytes are kept (`Card.RecoverUntilDone`).
- Truncating a torn last byte of a recovered recording is best effort. If it fails, the file is
  finalized with an odd size and the manifest's own check refuses it (`TornStays`); a recording of
  whole samples always passes (`WholeIsFinalized`).
- The writer's header says that after a successful close the file is a valid WAV stream. After a
  failed write that stored some of its bytes, a close succeeds and the file is longer than its header
  declares, so the manifest's check refuses it (`CloseAfterFailedWrite`, `TornFirstWrite`). `Close`
  gives the exact condition. A failed checkpoint does no such harm (`CloseAfterFailedFlush`).
- The PC tool takes an existing final file that it cannot read for a different one: it completes the
  run with a conflict row beside a matching file (`JudgedExactly`, `ReachedExactly`). A later run
  that can read it settles the recording (`RerunConverges`).
- On a first manifest creation that is cut before its rename, recovery fails closed unless the tmp
  file is complete (`TornCreation`; `Card.Recover` states the exact condition).
- The check for NUL bytes at the start of the manifest recogniser and the refusal of `.wav.part`
  names after `.wav` was required never decide anything.

## Model

| member | source | states |
|---|---|---|
| SessionGateSafety.ResetBarrier | firmware/components/recorder/usb_cdc_session_gate.c:418-444 | in every interleaving, when reset returns no thread that passed `command_begin` is still running |
| SessionGateSafety.NoEarlierFrameAfterReset | firmware/components/recorder/usb_cdc_session_gate.c:378-444 | no command of a generation before the one a reset returned at is admitted afterwards, even while opens race with it |
| SessionGateSafety.StaleFence | firmware/components/recorder/usb_cdc_session_gate.c:246-376 | every admitted snapshot or command is preceded, for each stale notification before its epoch load, by an empty read that began after that notification |
| SessionGateSafety.WordsMean | firmware/components/recorder/usb_cdc_session_gate.c:67-128 | at every point the word counts the classifying callbacks, the active count the joined commands, OPEN means the whole word is OPEN, drained never exceeds discard, and the saturation branches are not taken |
| SessionGateSafety.RunKeepsInv | firmware/components/recorder/usb_cdc_session_gate.c:130-444 | one invariant over words, epochs, program counters and history holds in every state of every run |
| SessionGateSafety.StepKeepsInv | firmware/components/recorder/usb_cdc_session_gate.c:159-444 | each atomic step of each thread keeps that invariant |
| SessionGateSafety.CoverFences | firmware/components/recorder/usb_cdc_session_gate.c:12-17 | equal epochs mean that the last stale notification is behind an empty read |
| SessionGateRest.NothingLeftBehind | firmware/components/recorder/usb_cdc_session_gate.c:47-128 | in every run, when no call is under way nothing is reserved or being classified, no reset is pending, the active count is the running commands, and the word is published only in an OPEN session |
| SessionGateRest.RunAnswered | firmware/components/recorder/usb_cdc_session_gate.c:47-244 | at every point some thread answers for a reservation, for a word published outside an OPEN session, and for a pending reset |
| SessionGateSafety.LogGrows | firmware/components/recorder/usb_cdc_session_gate.c:130-444 | history only grows along a run, so what was admitted or drained stays on record |
| SessionGateAdmission.AdmittedWhileOpen | firmware/components/recorder/usb_cdc_session_gate.c:246-408 | in every run, whatever other threads do, an admission was recorded by a thread that inside that very check saw the phase OPEN, then the word published, and the generation that it admits |
| SessionGateAdmission.OpenedWhileOpen | firmware/components/recorder/usb_cdc_session_gate.c:159-228 | in every run, an open that answers true has published the word in a phase that it saw OPEN before and after, or has found the phase OPEN and the word published |
| SessionGateAdmission.SeenBefore | firmware/components/recorder/usb_cdc_session_gate.c:246-408 | a check that has reached its epoch comparison has passed those states one after the other in its own call |
| SessionGateAlone.SnapshotAlone | firmware/components/recorder/usb_cdc_session_gate.c:246-276 | undisturbed, a snapshot is admitted exactly if the phase is OPEN, the word published and the epochs equal, and takes the current generation |
| SessionGateAlone.CurrentAlone | firmware/components/recorder/usb_cdc_session_gate.c:278-290 | undisturbed, a snapshot is current exactly if that holds and the generation is still its own |
| SessionGateAlone.CommandAlone | firmware/components/recorder/usb_cdc_session_gate.c:378-408 | undisturbed, a command begins exactly then and is counted active once; a refused one leaves the gate as it was |
| SessionGateAlone.NoteAlone | firmware/components/recorder/usb_cdc_session_gate.c:292-337 | undisturbed, a notification is stale unless the session is published, and leaves the count as it was |
| SessionGateAlone.CloseAlone | firmware/components/recorder/usb_cdc_session_gate.c:230-244 | undisturbed, closing an open session starts the next generation, counts as stale and leaves the word dirty and shut; otherwise nothing changes |
| SessionGateAlone.DrainAlone | firmware/components/recorder/usb_cdc_session_gate.c:358-376 | undisturbed, a drain to empty makes the epochs equal and clears the mark where nothing is opening, open or being classified |
| SessionGateAlone.ResetAlone | firmware/components/recorder/usb_cdc_session_gate.c:418-444 | undisturbed and with no active command, reset leaves a closed gate of the next generation |
| SessionGateAlone.ResetWaits | firmware/components/recorder/usb_cdc_session_gate.c:437-441 | with an active command reset waits, however long it is given |
| SessionGateAlone.OpenAlone | firmware/components/recorder/usb_cdc_session_gate.c:159-228 | undisturbed, open publishes a clean word, confirms a drained session and otherwise changes nothing |
| SessionGateAlone.SessionAlone | firmware/components/recorder/usb_cdc_session_gate.c:12-45 | after a close, a drain to empty and an open, a command of the new generation begins and one of the old is refused |
| SessionGateOpening.OpenKeepsPromiseExactly | firmware/components/recorder/usb_cdc_session_gate.c:159-228 | undisturbed, open answers false on pending stale data exactly when it is not in a state with a clean word and unequal epochs |
| SessionGateOpening.OpenTrueWithPending | firmware/components/recorder/usb_cdc_session_gate.c:159-228 | in every interleaving, an open that publishes answers true with stale data pending only if the epochs differed at its reservation or a notification came after it, and exactly then if no drain moved the mark meanwhile |
| SessionGateOpening.OpenAgainWithPending | firmware/components/recorder/usb_cdc_session_gate.c:166-180 | an open that finds the gate open answers true with stale data pending only if a notification came after it loaded the discard epoch |
| SessionGateOpening.OpenAnswersTrueWithStaleData | firmware/components/recorder/usb_cdc_session_gate.c:24-45 | such a state is reachable: a concrete run in which open answers true while stale data is undrained |
| ManifestText.Find | firmware/components/recorder/device_manifest.c:513-529 | the first position of a needle in bounded text, or none when it does not occur |
| ManifestText.ReadString | firmware/components/recorder/device_manifest.c:634-654 | reads a quoted string exactly where a string without escapes or control bytes stands |
| ManifestText.ReadNumber | firmware/components/recorder/device_manifest.c:656-677 | reads a number exactly where the canonical decimal of a value below 2^32 stands |
| ManifestText.DigitsOfDec | firmware/components/recorder/device_manifest.c:656-677 | printing a number and reading its digits gives the number back |
| TextFormat.Match | firmware/components/recorder/device_manifest.c:623-677 | expect, string and number calls along a fixed format accept exactly the printed values of that format |
| TextFormat.PrintedIsShown | firmware/components/recorder/device_manifest.c:623-677 | reading field by field recognises exactly the printed text |
| TextFormat.PrintedUnique | firmware/components/recorder/device_manifest.c:623-677 | a text determines the values read from it and where they end |
| TextFormat.NoKey | firmware/components/recorder/device_manifest.c:832-842 | a key text cannot stand inside printed fields that do not hold it, so a byte search for it finds only real keys |
| ManifestCodec.ReadEntry | firmware/components/recorder/device_manifest.c:781-837 | one entry is accepted exactly when it is the printed form of a well-formed entry with the fixed audio format |
| ManifestChecks.IsEntry | firmware/components/recorder/device_manifest.c:781-831 | the field checks of an entry, loop by loop, accept exactly the well-formed entries |
| ManifestChecks.IsStamp | firmware/components/recorder/device_manifest.c:69-123 | the timestamp check accepts exactly a calendar date and time with an offset up to 14:00 |
| ManifestChecks.IsUuid | firmware/components/recorder/device_identity.c:31-46 | the character loop accepts exactly the hyphenated hexadecimal form |
| ManifestChecks.IsFilename | firmware/components/recorder/device_manifest.c:183-211 | accepts exactly relative names of finalized recordings without quote, backslash or control characters |
| ManifestWording.EntryWritten | firmware/components/recorder/device_manifest.c:313-322 | the text of every entry, word for word |
| ManifestWording.EntryShort | firmware/components/recorder/device_manifest.c:266-328 | a well-formed entry always fits the buffer it is built in |
| ManifestWording.Milliseconds | firmware/components/recorder/device_manifest.c:163-166 | the duration is 1000 times the payload over 32000 bytes a second, rounded down |
| ManifestUpsert.Cuts | firmware/components/recorder/device_manifest.c:758-770 | the text of a manifest around its entries, word for word |
| ManifestEntries.Stands | firmware/components/recorder/device_manifest.c:781-850 | in a joined array each entry stands at its place after its comma |
| ManifestEntries.NeedleInEntries | firmware/components/recorder/device_manifest.c:835-842 | the recordingId needle is found in the array only at the entry with that id |
| ManifestReader.SnapshotValid | firmware/components/recorder/device_manifest.c:758-857 | a document is accepted exactly when it is the canonical text of a well-formed snapshot of the device with pairwise distinct recordingIds |
| ManifestExtends.PrintUnique | firmware/components/recorder/device_manifest.c:758-857 | a canonical document says exactly one snapshot |
| ManifestExtends.SelfDelimiting | firmware/components/recorder/device_manifest.c:874-910 | of two entry lists at one place in a text the shorter is a prefix of the longer |
| ManifestExtends.PrefixIsEntryPrefix | firmware/components/recorder/device_manifest.c:898-905 | the byte comparison with its comma rule holds exactly when one entry list is a prefix of the other |
| ManifestExtends.Extends | firmware/components/recorder/device_manifest.c:874-910 | holds exactly when both documents are canonical and the old entry list is a prefix of the new one |
| ManifestUpsert.Splice | firmware/components/recorder/device_manifest.c:1245-1378 | the cut-and-insert on bytes rewrites only the timestamp and adds the entry before the closing bracket |
| ManifestUpsert.AddedPrints | firmware/components/recorder/device_manifest.c:1341-1361 | the spliced text is the canonical text of the snapshot with the new timestamp and the entry appended |
| ManifestUpsert.ProbeHits | firmware/components/recorder/device_manifest.c:1160-1172 | a found needle is the key of the stored entry with that id, never a string elsewhere |
| ManifestUpsert.ProbeMisses | firmware/components/recorder/device_manifest.c:1160-1172 | a needle that is not found means that no entry has the id |
| ManifestUpsert.PlanAppend | firmware/components/recorder/device_manifest.c:1131-1378 | duplicate, conflict, refusal at the admission ceiling or the canonical text of the extended snapshot, decided as the stored entries demand |
| ManifestUpsert.SplicedExactly | firmware/components/recorder/device_manifest.c:1245-1378 | whatever text is spliced in as the entry, the result is a canonical manifest exactly when the text says one or more entries with new ids, and then it is the manifest with those added |
| ManifestStore.Card.UpsertText | firmware/components/recorder/device_manifest.c:1001-1379 | for any entry text and any id scanned from it, the card keeps its snapshot or gains exactly the entries that the text says; an id already listed leaves every file untouched; without faults a new id is answered OK exactly if the text says entries and the result is within the admission ceiling |
| ManifestStore.CommittedRecovers | firmware/components/recorder/device_manifest.c:1399-1450 | a committed card is always recoverable, and recovery keeps the committed snapshot |
| ManifestStore.Card.Recover | firmware/components/recorder/device_manifest.c:1399-1450 | without faults it succeeds exactly on recoverable files and leaves one file, the authoritative one; with faults or a cut anywhere a committed snapshot stays committed |
| ManifestStore.TornCreation | firmware/components/recorder/device_manifest.c:1443-1449 | after a first creation cut before its rename, recovery can succeed exactly if the tmp file is a complete manifest, and an empty one is not |
| ManifestStore.Card.Publish | firmware/components/recorder/device_manifest.c:922-999 | whatever fails and wherever power is cut, the card holds the old snapshot or the new one; success means the new one is published |
| ManifestStore.Card.CrashAndRecover | firmware/components/recorder/device_manifest.c:922-1450 | a publication cut anywhere, then recoveries cut anywhere, then one calm recovery: one file remains and it holds the old or the new snapshot |
| ManifestStore.Card.Create | firmware/components/recorder/device_manifest.c:1085-1129 | a missing manifest is created with one entry, without faults always, and not while a backup waits for recovery |
| ManifestStore.Card.Upsert | firmware/components/recorder/device_manifest.c:1001-1379 | keeps the committed entries as a prefix in every outcome; OK means that the entry under the id has the same hash, name, size and duration and starts at most two seconds apart; an id that is already listed leaves every file untouched and, without faults, is a conflict exactly if one of these differs |
| ManifestStore.PlanFields | firmware/components/recorder/device_manifest.c:1222-1235 | for a stored id the plan is Already exactly if hash, name, size, duration and start agree with the stored ones, and Conflict otherwise |
| ManifestStore.Card.Serve | firmware/components/recorder/device_manifest.c:922-1450 | over any sequence of boots and uploads with faults and cuts, committed entries stay a prefix and every recording answered OK stays listed |
| ManifestIndex.CountRecordings | firmware/components/recorder/device_manifest.c:1501-1527 | counting key occurrences counts the entries of an accepted manifest |
| ManifestIndex.HashFile | firmware/components/recorder/device_manifest.c:395-440 | a file is hashed exactly when it can be read and is a finalized recording, and the text is the SHA-256 of its bytes |
| ManifestIndex.EnsureOne | firmware/components/recorder/device_manifest.c:1598-1717 | an indexed file has an entry with its id, name, length, the hash of its bytes and its start time; only other names are skipped; without faults a described file is found again with nothing changed, and a new one with room is added |
| ManifestIndex.ScanDir | firmware/components/recorder/device_manifest.c:1810-1862 | every canonical file of a date directory is a finalized recording and is described by an entry; without faults a directory that is listed already is passed with nothing changed |
| ManifestIndex.CountingIsOnto | firmware/components/recorder/device_manifest.c:1888-1897 | as many entries as indexed files with different names: every entry describes one of the files |
| ManifestIndex.CountsAgree | firmware/components/recorder/device_manifest.c:1888-1897 | equal counts make the index complete in both directions |
| ManifestIndex.Sync | firmware/components/recorder/device_manifest.c:1719-1904 | when the scan succeeds, every canonical recording is finalized and stored with its id, name, length and hash, and every entry stores one; without faults a complete index is confirmed with nothing changed |
| ManifestIndex.SyncAgain | firmware/components/recorder/device_manifest.c:1719-1904 | after a scan that succeeded the next one without faults succeeds and adds nothing |
| ManifestIndex.CompleteLists | firmware/components/recorder/device_manifest.c:1888-1897 | a complete index stores every recording below the directory, and nothing else |
| ManifestIndex.RecordingExactly | firmware/components/recorder/device_manifest.c:1598-1660 | a file is indexed exactly if its directory is a date, its name starts with a time of day and an id, and it ends in .wav |
| ManifestIndex.StampStarts | firmware/components/recorder/device_manifest.c:1648-1660 | the start instant is the date of the directory and the HHMMSS of the name, in UTC |
| ManifestIndex.AllWantedDiffer | firmware/components/recorder/device_manifest.c:1838-1847 | files of one listing have different relative names |
| Ownership.Device.Reset | firmware/components/recorder/shutdown_armed.c:153-174 | a boot starts exactly if the byte can be read and is NORMAL, or armed or pending with WAKE held, and has a recovery pending exactly if it is not NORMAL; all volatile state is clear |
| Ownership.Device.Write | firmware/components/recorder/shutdown_armed.c:21-40 | the durable byte changes only along the legal edges with their evidence, even when a write fails half-way, and always when it works |
| Ownership.Device.SyncManifest | firmware/main/task87_wake_recovery.c:27-54 | succeeds exactly in a boot with the card mounted and scanned and, with a recovery pending, events flushed and the mark written; the mark is written only then |
| Ownership.Device.RecordingStarted | firmware/main/task87_wake_recovery.c:56-79 | the session runs exactly if no recovery was pending or it was completed with a fresh recording id and NORMAL written |
| Ownership.Device.MountCard | firmware/components/recorder/sd_mount.c:148-230 | the card is mounted only in a boot that may start |
| Ownership.Device.StartUsb | firmware/components/recorder/usb_msc_ownership.c:752-770 | the driver is installed only in a running session with the byte NORMAL and the card mounted; callbacks run from here on |
| Ownership.Device.Installed | firmware/components/recorder/usb_msc_ownership.c:770-781 | when the install call returns, only the started flag depends on its result; whatever the callbacks did meanwhile stays |
| Ownership.Device.Attached | firmware/components/recorder/usb_msc_ownership.c:395-460 | the host owns the card exactly from an attach after the storage was handed over while disconnected; an earlier attach is provisional |
| Ownership.Device.Detached | firmware/components/recorder/usb_msc_ownership.c:470-495 | a detach changes no ownership flag |
| Ownership.Device.CommandComplete | firmware/components/recorder/usb_msc_ownership.c:605-644 | exactly a completed TEST UNIT READY on a provisional configuration triggers publication; later commands grant nothing |
| Ownership.Device.BackendCommand | firmware/components/recorder/usb_msc_ownership.c:704-750 | while the driver runs, a wrapped command reaches storage exactly when no release was accepted |
| Ownership.Device.AcceptRelease | firmware/components/recorder/usb_msc_ownership.c:542-570 | accepts exactly a valid id while the driver runs, the host owns the card and nothing was accepted before in the powered session |
| Ownership.IsAttempt | firmware/components/recorder/usb_msc_ownership.c:514-535 | the attempt id check accepts exactly 1 to 64 letters, digits and the four marks |
| Ownership.Device.ResponseComplete | firmware/components/recorder/usb_msc_ownership.c:572-591 | signals teardown exactly once, exactly for the accepted attempt while its response is awaited |
| Ownership.Device.HandleAttach | firmware/main/task49_runtime.c:215-245 | the release is requested exactly after a disconnect of a recording device whose publication was triggered |
| Ownership.Device.FinishPrepare | firmware/components/recorder/usb_msc_ownership.c:290-301 | publication proceeds only with the writer finalized and the file system released |
| Ownership.Device.PublishMark | firmware/components/recorder/usb_msc_ownership.c:303-316 | HOST_UNRESOLVED is durable before the card can become USB-owned |
| Ownership.Device.Transfer | firmware/components/recorder/sd_mount.c:315-349 | the storage becomes USB-owned only from the marked state, with the device mount gone |
| Ownership.Device.Unmount | firmware/components/recorder/sd_mount.c:394-435 | with a release requested, unmounting only marks the file system released; without one it unmounts, or stops after a failed deletion or a failed driver uninstall |
| Ownership.Device.HandleHostOwned | firmware/main/task49_runtime.c:272-288 | USB_SYNC is entered only with the host owning an unmounted card |
| Ownership.Device.HandleRelease | firmware/main/task49_runtime.c:307-334 | quiescing starts only after the one teardown signal |
| Ownership.Device.ReleaseStorage | firmware/components/recorder/sd_mount.c:351-384 | commit is reached only with the driver stopped and storage and MSC driver deleted |
| Ownership.Device.CommitArmed | firmware/components/recorder/usb_msc_ownership.c:883-893 | ARMED is written only after driver uninstall and storage deletion |
| Ownership.Device.Retire | firmware/components/recorder/usb_msc_ownership.c:895-912 | ownership flags are cleared only after ARMED is durable |
| Ownership.Device.BeginPrepare | firmware/components/recorder/usb_msc_ownership.c:820-841 | the device disconnects exactly from a provisional configuration with publication triggered; only a failed disconnect is reported as a fault |
| Ownership.Device.PowerOn | firmware/components/recorder/shutdown_armed.c:153-174 | from NORMAL, with every step working, a boot reaches a running recording with the card mounted and USB started |
| Ownership.Device.Publish | firmware/main/task49_runtime.c:215-272 | from there an attach and a first command lead to a finalized, released and durably marked card |
| Ownership.Device.HandOver | firmware/components/recorder/sd_mount.c:315-349 | and the transfer, reconnect and second attach to a host that owns the card |
| Ownership.Device.Ask | firmware/components/recorder/usb_msc_ownership.c:542-591 | one release is then accepted, and its response signals teardown once |
| Ownership.Device.TearDown | firmware/components/recorder/usb_msc_ownership.c:855-912 | teardown with every step working ends with the byte ARMED |
| Ownership.Device.WakeUp | firmware/main/task87_wake_recovery.c:27-79 | a boot from ARMED with WAKE held ends in a running recording with the byte NORMAL |
| Ownership.Device.Cycle | firmware/components/recorder/shutdown_armed.c:106-174 | the whole cycle: from NORMAL to a host-owned card, one accepted release, ARMED and back to a recording under NORMAL, with exactly those four changes of the byte |
| Ownership.Device.OwnedMeans | firmware/components/recorder/usb_msc_ownership.c:290-459 | USB-owned excludes the device mount and is boot-visible until teardown; host-owned implies USB-owned; at most one accept and one teardown; all durable changes legal |
| Ownership.Device.Live | firmware/main/task49_runtime.c:352-519 | every run of callbacks, commands, coordinator steps, boots and resets keeps all of this, and a device down with HOST_UNRESOLVED stays so |
| Ownership.WholeCycle | firmware/components/recorder/shutdown_armed.c:106-174 | after a hand-over the byte returns to NORMAL only through teardown, a WAKE boot with recovery, and a fresh recording |
| CdcTransport.Transport.WriteResponse | firmware/components/recorder/usb_cdc_tx.c:79-151 | true only when exactly response and line feed were queued in order, the barrier held for a release, and the session was still current; and true when the session stays, every byte is taken and the transfer completes |
| CdcTransport.Transport.QueueAll | firmware/components/recorder/usb_cdc_tx.c:91-118 | at any exit a prefix of the response was queued, on success all of it |
| CdcTransport.Transport.WaitFinalIn | firmware/components/recorder/usb_cdc_tx.c:35-66 | true only after three complete samples with the session current in between, and true when every sample is |
| CdcTransport.CompleteAcceptedRelease | firmware/components/recorder/usb_cdc_tx.c:68-77 | teardown is signalled exactly for an accepted and completed response that is still awaited |
| CdcTransport.ReleaseCommand | firmware/components/recorder/usb_cdc_protocol.c:325-360 | one command: teardown only for the attempt it got accepted, after its whole response and three samples with a new callback, an empty FIFO and an idle endpoint in its session; and always then on a host that serves it |
| Sha256Stream.HashChunks | firmware/components/recorder/sha256.c:93-167 | for every split of a message into updates the digest is SHA-256 of the whole, FIPS 180-4 sections 5.1.1, 5.2.1 and 6.2.2 |
| Sha256Stream.Context.Transform | firmware/components/recorder/sha256.c:38-91 | the in-place rounds compress the buffered block into the state |
| Sha256Stream.Context.Schedule | firmware/components/recorder/sha256.c:53-59 | the word array is the message schedule of the block |
| Sha256Stream.Context.Update | firmware/components/recorder/sha256.c:109-123 | absorbs exactly the bytes given, keeping state and buffer in step with the message |
| Sha256Stream.Context.Finish | firmware/components/recorder/sha256.c:125-167 | pads in the buffer, in one block or two, and yields the digest |
| Sha256Stream.OneBlock | firmware/components/recorder/sha256.c:133-139 | with room for the length the buffer is the last block of the padded message |
| Sha256Stream.FirstOfTwo | firmware/components/recorder/sha256.c:139-147 | without room the first buffer is the last but one block |
| Sha256Stream.SecondOfTwo | firmware/components/recorder/sha256.c:145-159 | and the second one, zeros and the length, is the last block |
| Sha256Stream.ChainPrefix | firmware/components/recorder/sha256.c:109-123 | the state depends only on the blocks already compressed |
| Sha256Bits.RotROne | firmware/components/recorder/sha256.c:14 | rotating by one carries the lowest bit to the top and moves the others down |
| Sha256Bits.RotRStep | firmware/components/recorder/sha256.c:14 | rotating by n is rotating by one n times |
| Sha256Bits.Choice | firmware/components/recorder/sha256.c:15 | CH takes the bits of y where x has ones and those of z elsewhere |
| Sha256Bits.Majority | firmware/components/recorder/sha256.c:16 | MAJ takes the bits two of the three words agree on |
| Sha256Bits.WordOfBytes | firmware/components/recorder/sha256.c:53-56 | a word is read with its first byte on top |
| Sha256Bits.BytesOfWord | firmware/components/recorder/sha256.c:162-168 | a word is written with its top byte first |
| Sha256Bits.BytesOfLength | firmware/components/recorder/sha256.c:148-157 | the eight length bytes are the bit length, top byte first |
| Sha256Constants.FirstPrimes | firmware/components/recorder/sha256.c:22-36 | the table behind the constants is the first 64 primes |
| Sha256Constants.RoundConstants | firmware/components/recorder/sha256.c:22-36 | each round constant is the first 32 bits of the fraction of the cube root of its prime |
| Sha256Constants.InitialWords | firmware/components/recorder/sha256.c:93-107 | each initial word is the first 32 bits of the fraction of the square root of its prime |
| Sha256Example.DigestOfAbc | firmware/components/recorder/sha256.c:38-167 | the digest of "abc", byte for byte as in the first example of FIPS 180-4 |
| Sha256Hex.ToHex | firmware/components/recorder/sha256.c:174-188 | the text is lowercase hex the manifest accepts, and its digits give the digest back |
| Sha256Hex.FileHex | firmware/components/recorder/sha256.c:209-249 | reading in pieces of a kilobyte until a short one yields the SHA-256 text of the whole file |
| CivilDays.NextIsOneMore | firmware/components/recorder/rtc_correction.c:80-92 | the closed formula grows by exactly one from each date to the next |
| CivilDays.Epoch | firmware/components/recorder/rtc_correction.c:80-92 | and is zero on 1970-01-01 |
| CivilDays.Monotone | firmware/components/recorder/rtc_correction.c:80-92 | later dates have larger numbers |
| CivilDays.Injective | firmware/components/recorder/rtc_correction.c:80-92 | different dates have different numbers |
| CivilDays.YearLength | firmware/components/recorder/rtc_correction.c:63-92 | a March year has 366 days exactly when it ends in a leap February |
| CivilDays.DateOfNumber | firmware/components/recorder/rtc_correction.c:186-187 | counting days from the epoch inverts the formula |
| RtcClock.RegistersRoundTrip | firmware/components/recorder/rtc_correction.c:273-354 | reading back the registers written for any instant of 2000 to 2099 yields that instant |
| RtcClock.ReadingIsWritten | firmware/components/recorder/rtc_correction.c:309-354 | whatever reads as an instant is in the window and is what writing it stores, up to flag bits and weekday |
| RtcClock.ReadsExactly | firmware/components/recorder/rtc_correction.c:309-354 | registers read as an instant exactly if the oscillator ran, the century flag is clear and the fields are those that writing the instant stores |
| RtcClock.ExampleRegisters | firmware/components/recorder/rtc_correction.c:273-292 | the seven registers of one instant, weekday included |
| RtcClock.WindowYears | firmware/components/recorder/rtc_correction.c:180-183 | the epoch window is exactly the years 2000 to 2099 |
| RtcClock.Chip.WriteEpoch | firmware/components/recorder/rtc_correction.c:273-307 | success exactly for an instant of the window with all three transfers working, and then the clock runs and reads as it; another instant touches nothing |
| RtcTimestamp.ParseIso | firmware/components/recorder/rtc_correction.c:110-200 | the parser with its loops over digits, fraction and zone answers as the specification says |
| RtcText.AcceptedExactly | firmware/components/recorder/rtc_correction.c:110-200 | a text is accepted exactly if it has at most 40 characters and is a manifest timestamp in the window, without a leap second, with an optional fraction before its zone, which may be Z for +00:00 |
| RtcText.SaysInstant | firmware/components/recorder/rtc_correction.c:144-187 | fraction and spelling of the zone change nothing: the answer is the instant of that timestamp |
| RtcText.ExampleZulu | firmware/components/recorder/rtc_correction.c:110-200 | the epoch and normalized text of one text with Z |
| RtcText.ExampleEast | firmware/components/recorder/rtc_correction.c:110-200 | and of one with a fraction and a zone east of Greenwich |
| RtcText.ExampleWest | firmware/components/recorder/rtc_correction.c:110-200 | and of one with a zone west of it |
| RtcTimestamp.Idempotent | firmware/components/recorder/rtc_correction.c:184-199 | normalizing a normalized timestamp changes neither text nor instant |
| RtcTimestamp.NormalizedKeepsInstant | firmware/components/recorder/rtc_correction.c:171-199 | the normalized text is a manifest timestamp of the same instant with the zone +00:00 |
| RtcTimestamp.ParsersAgree | firmware/components/recorder/device_manifest.c:712-738 | on manifest timestamps without a leap second both parsers name the same instant |
| PcmPipeline.FallbacksUnreachable | firmware/components/recorder/pcm_pipeline.c:55-125 | none of the three try-the-other-slot fallbacks can be taken |
| PcmPipeline.FillStep | firmware/components/recorder/pcm_pipeline.c:59-83 | filling a slot appends the bytes to the queue and leaves a peeked slot alone |
| PcmPipeline.ReleaseStep | firmware/components/recorder/pcm_pipeline.c:116-131 | giving back the oldest full slot takes exactly its bytes off the front |
| PcmPipeline.Pipeline.Produce | firmware/components/recorder/pcm_pipeline.c:34-89 | takes in exactly the whole-sample bytes that fit, counts the rest as dropped, and keeps the peeked slot |
| PcmPipeline.Pipeline.PeekFull | firmware/components/recorder/pcm_pipeline.c:98-114 | hands out the slot that holds the front of the queue |
| PcmPipeline.Pipeline.ReleaseFull | firmware/components/recorder/pcm_pipeline.c:116-131 | drains exactly the peeked slot and frees that slot |
| PcmPipeline.QueueSize | firmware/components/recorder/pcm_pipeline.c:41-53 | queued bytes and free bytes add up to both slots |
| LineFramer.FeedAll | firmware/components/recorder/usb_cdc_protocol_core.c:121-157 | the bounded framer emits exactly the frames of the unbounded split for every stream |
| LineFramer.Framer.Feed | firmware/components/recorder/usb_cdc_protocol_core.c:121-157 | each byte extends the frames of the stream by what it returns |
| LineFramer.FramesSplit | firmware/components/recorder/usb_cdc_protocol_core.c:133-156 | a frame depends only on the bytes since the line feed before it |
| LineFramer.OneMore | firmware/components/recorder/usb_cdc_protocol_core.c:133-156 | one more byte completes a frame exactly when it is a line feed |
| Utf8.Utf8Valid | firmware/components/recorder/usb_cdc_protocol_core.c:29-64 | accepts exactly the encodings of nonzero Unicode scalar values and yields values that encode to the input, RFC 3629 sections 3 and 4 |
| Utf8.EncodingPasses | firmware/components/recorder/usb_cdc_protocol_core.c:36-61 | each encoded value passes the tests, and they compute it |
| Utf8.PassingIsEncoding | firmware/components/recorder/usb_cdc_protocol_core.c:36-61 | what passes the tests is the encoding of the computed value |
| Utf8.DecodeShape | firmware/components/recorder/usb_cdc_protocol_core.c:56-61 | no overlong form, surrogate or value past U+10FFFF passes |
| RtcEvent.Log.Recover | firmware/components/recorder/rtc_correction_event.c:61-165 | one attempt, with any of its operations failing, leaves what the attempt function says |
| RtcEvent.Log.ReadLines | firmware/components/recorder/rtc_correction_event.c:87-133 | the bounded read loop sees what the scan function sees |
| RtcEvent.ScanLines | firmware/components/recorder/rtc_correction_event.c:87-133 | on complete lines with a tail the scan finds the match among the lines and where the tail starts |
| RtcEvent.RefusedExactly | firmware/components/recorder/rtc_correction_event.c:87-133 | the scan refuses a file exactly if it is not acceptable complete lines and a tail that can be cut off, and an attempt then touches nothing and leaves the mark |
| RtcEvent.BadLineRefused | firmware/components/recorder/rtc_correction_event.c:121-131 | one bad complete line anywhere is enough for that, whatever else works |
| RtcEvent.AttemptKeeps | firmware/components/recorder/rtc_correction_event.c:61-165 | an attempt keeps earlier lines and clears the mark only when the event reads back recorded once |
| RtcEvent.ClearedDurably | firmware/components/recorder/rtc_correction_event.c:139-164 | when an attempt clears the mark, exactly one complete matching line is durable unless it found the event unsynced, an exact condition on the state before |
| RtcEvent.ClearedDurablyExactly | firmware/components/recorder/rtc_correction_event.c:61-165 | in every run, at a clear exactly one complete matching line is durable if and only if no attempt since the last reset appended the event and failed its sync |
| RtcEvent.EventsInText | firmware/components/recorder/rtc_correction_event.c:87-133 | counting complete matching lines on the bytes counts those of the lines they were written from, whatever tail follows |
| RtcEvent.CutKeeps | firmware/components/recorder/rtc_correction_event.c:104-119 | a power cut leaves the earlier lines and at most a torn tail |
| RtcEvent.RunKeeps | firmware/components/recorder/rtc_correction_event.c:61-165 | so does every run of attempts and cuts |
| RtcEvent.ClearedOnce | firmware/components/recorder/rtc_correction_event.c:158-164 | in every run, when the mark is cleared the file reads back the old lines and exactly one matching line |
| RtcEvent.CalmAttempt | firmware/components/recorder/rtc_correction_event.c:61-165 | from every reachable state an attempt without faults clears the mark |
| RtcEvent.ClearedThenLost | firmware/components/recorder/rtc_correction_event.c:139-164 | a failed sync, a retry before any reset and a power cut: the mark is cleared and the event is lost |
| WavFormat.ValidExactly | firmware/components/recorder/wav_recovery.c:106-147 | a header is accepted exactly when it agrees with a built one outside bytes 4-7 and 40-43 |
| WavFormat.OneSecond | firmware/components/recorder/wav_part.c:42-62 | the header of one second of audio, byte for byte |
| WavFormat.TornValid | firmware/components/recorder/wav_recovery.c:106-147 | any bytewise mix of two accepted headers is accepted |
| WavFormat.DeclaresSize | firmware/components/recorder/device_manifest.c:365-393 | behind the header built for a payload length, a file is a finalized recording exactly when its payload has that length |
| WavFormat.FinalizedExactly | firmware/components/recorder/device_manifest.c:365-393 | a file passes the finalized check exactly if it starts with the header built for the whole samples behind it |
| WavFormat.BuiltIsFinalized | firmware/components/recorder/device_manifest.c:365-393 | a built header in front of its payload of whole samples is a finalized recording |
| WavRecovery.KeepsSamplesExactly | firmware/components/recorder/wav_recovery.c:303-313 | recovery keeps every whole sample exactly when the size fits 32 bits |
| WavRecovery.HeldExactly | firmware/components/recorder/wav_recovery.c:354-381 | a recoverable recording is sent to quarantine exactly when its size or, once opened, its header cannot be read |
| WavRecovery.ReadFaultHolds | firmware/components/recorder/wav_recovery.c:359-381 | an intact recording that the next attempt would finish is held after one failed read |
| WavRecovery.Card.Recover | firmware/components/recorder/wav_recovery.c:318-400 | never overwrites or loses a file; a file beside a finalized one, too short or with a foreign header is held; an interrupted recording stays on its way exactly unless the attempt misreads it and can move it, and then it is unchanged under a quarantine name |
| WavRecovery.Card.Quarantine | firmware/components/recorder/wav_recovery.c:196-264 | moves the file unchanged to the first free of its hundred names, or changes nothing |
| WavRecovery.Card.RewriteHeader | firmware/components/recorder/wav_recovery.c:266-301 | whatever is cut, payload and size stay and each header byte is old or new |
| WavRecovery.Card.FinishFile | firmware/components/recorder/wav_recovery.c:382-400 | a recovered file is a valid finalized WAV exactly if it had no torn byte or the truncation worked |
| WavRecovery.Card.RecoverUntilDone | firmware/components/recorder/wav_recovery.c:318-400 | after attempts cut anywhere and one calm one: if no attempt misread the file, the finalized file is the recording, valid exactly if it had no torn byte or one was cut off; otherwise it may lie whole in quarantine, where no later attempt finds it |
| WavRecovery.DoneIsFinalized | firmware/components/recorder/device_manifest.c:365-393 | a done file passes the finalized check exactly when it had no torn byte or lost it |
| WavRecovery.WholeIsFinalized | firmware/components/recorder/device_manifest.c:365-393 | a recording of whole samples ends finalized whatever fails |
| WavRecovery.TornStays | firmware/components/recorder/wav_recovery.c:303-313 | for every recording with a torn byte that is not cut off, the done file is refused by the finalized check |
| WavPart.Part.Write | firmware/components/recorder/wav_part.c:154-173 | appends whole samples and counts them when the write works, and otherwise counts nothing; what is stored, all or part, lands at the position |
| WavPart.Part.Flush | firmware/components/recorder/wav_part.c:87-108 | a checkpoint rewrites the header and leaves the payload alone; a failed one leaves each header byte old or new and the position where it was or inside the header |
| WavPart.StrayWrite | firmware/components/recorder/wav_part.c:87-108 | a write at a position inside the file leaves the file alone exactly when it writes the bytes that are there |
| WavPart.Part.Close | firmware/components/recorder/wav_part.c:182-197 | whatever failed before, a good close leaves a finalized recording exactly when the file is as long as the accepted payload, and header and payload when that is what it held |
| WavPart.CloseAfterFailedWrite | firmware/components/recorder/wav_part.c:154-197 | after a failed write the close succeeds, and the file is a finalized recording exactly when the failed write stored nothing |
| WavPart.TornFirstWrite | firmware/components/recorder/wav_part.c:154-197 | one stored byte of a failed first write and a good close: the closed file is refused by the finalized check |
| WavPart.CloseAfterFailedFlush | firmware/components/recorder/wav_part.c:87-108 | after a failed checkpoint a good close still yields header and payload, a finalized recording |
| LibrarySync.Pc.SyncUntilDone | pc/src/m5daylog/sync.py:608-737 | runs interrupted anywhere or unable to read final files, and then one full run, leave the files and rows of a single uninterrupted run; a further run copies nothing |
| LibrarySync.Pc.Sync | pc/src/m5daylog/sync.py:637-737 | a run to the end settles every recording exactly unless a matching final file could not be read, which it marks as a conflict; any run leaves every recording on its way |
| LibrarySync.Pc.SyncOne | pc/src/m5daylog/sync.py:640-733 | one recording is settled as decided, or judged a conflict when its final cannot be read, or left midway |
| LibrarySync.Pc.Reuse | pc/src/m5daylog/sync.py:663-676 | an existing final is reused exactly if it reads back as the recording, and otherwise marked a conflict |
| LibrarySync.JudgedExactly | pc/src/m5daylog/sync.py:353-358 | an unreadable final leaves another outcome than a readable one exactly if it matched |
| LibrarySync.ReachedExactly | pc/src/m5daylog/sync.py:637-737 | a run to the end reaches the uninterrupted outcome exactly if no matching final was unreadable |
| LibrarySync.MidwayIsSafe | pc/src/m5daylog/sync.py:654-733 | in every midway state a final file has its bytes and a row newly marked SYNCED stands beside a matching final |
| LibrarySync.Pc.CopyVerified | pc/src/m5daylog/sync.py:382-408 | success means the partial holds the source and matches size and hash |
| LibrarySync.Pc.Publish | pc/src/m5daylog/sync.py:411-425 | an existing final is never replaced; success moves the partial to the final name |
| LibrarySync.MidwayConverges | pc/src/m5daylog/sync.py:654-733 | running again from any midway state ends where the uninterrupted run ends |
| LibrarySync.RerunConverges | pc/src/m5daylog/sync.py:608-737 | so does a full run after one that was interrupted or misread final files, for every recording |
| LibrarySync.SettledIsStable | pc/src/m5daylog/sync.py:663-676 | settling twice is settling once, and the second time nothing is copied |
| LibrarySync.ConflictExactly | pc/src/m5daylog/sync.py:640-733 | a conflict is recorded exactly if the row is of another device, hash or size or the file of another hash or size, and then no file changes; otherwise the final file is the existing or the copied one beside a SYNCED row |
| LibrarySync.SettledIsSafe | pc/src/m5daylog/sync.py:663-732 | a final file keeps its bytes and a row is SYNCED only beside a matching final |

## Left out

- ManifestUpsert.PlanAppend: takes the new entry as a record and prints it, and reads the stored entry at the needle with the entry recogniser instead of the substring field scanner of the source. For any other entry text `ManifestUpsert.SplicedExactly` and `ManifestStore.Card.UpsertText` say what can be published, with the results of the field scan and comparison as inputs.
- ManifestStore.Card.Publish: is given the device id of the document, which the source reads back from the document itself.
- ManifestIndex.Sync: starts from a committed card, which the boot recovery before it establishes; the length limit of absolute paths is not modelled, that of relative names is.
- ManifestIndex.EnsureOne: a file does not change while it is checked and hashed; file names hold no path separators.
- SessionGateSafety.ResetBarrier: the generation and the epochs are unbounded, so their 32-bit wrap-around is not modelled.
- Ownership.Device.AcceptRelease: is one step; in the source its checks, its compare-and-swap and two stores are separate, but one worker makes them and nothing clears them in between.
- Ownership.Device.Write: `shutdown_armed_clear`, which would take ARMED straight to NORMAL, is exported but called by no firmware code, and is not modelled.
- Ownership.Device.SyncManifest: the manifest sync and the pending event flush are inputs here; they are proved in their own modules.
- Ownership.Device.StartUsb: the driver is installed once per power cycle, as the boot sequence does; a second start after a failed install is not modelled.
- CdcTransport.Transport.WriteResponse: the transport answers a finite script and is disconnected afterwards; a host that stays connected and never takes a byte is not modelled.
- CdcTransport.ReleaseCommand: teardown is signalled after the command has left the session gate, so the session is proved current at the end of the response, not at the signal.
- RtcEvent.Log.Recover: the JSON classification of a line is a parameter.
- RtcClock.Chip.ReadEpoch: the clock does not advance between writing and reading.
- WavRecovery.Card.Recover: one interrupted file and its names; the directory scan that calls it, its counters and its event lines are left out, and sizes are not limited by a 32-bit `long`.
- WavPart.Part.Flush: a payload of 4 GiB and a file position past the end of the file are not modelled.
- LibrarySync.Pc.Sync: the preflight that fixes the recordings, path checks and other processes that create library files while it runs are left out; a row's descriptive columns are one value.
- PcmPipeline.Pipeline.Produce: null arguments and the driver's own overflow counters are left out.
- Scan and event-log formatting, cJSON parsing and command dispatch, drivers, power control, SCSI trace counters and the recorder's state table are left out: foreign calls, diagnostics, or settled by reading one function.
- The schema interpreter, database text, Windows adapter, release gate and capacity probe of the PC tool are left out: host plumbing or one-step checks.
