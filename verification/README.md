# A verified model of the save, link, codec and signer logic of the cartridge

The cartridge has two cores. Core 0 serves the Game Boy bus: the MBC3 mapper, and for the Crystal
integration a three-address mailbox. Core 1 writes save files to the SD card and runs the seed terminal.
This project models what the two share and what they compute, and proves what a player or a signer
relies on.

| modules | what they model | main results |
|---|---|---|
| `SaveEngine`, `SaveProtocol`, `SaveSteps`, `SaveRuns`, `SaveMixtures`, `SaveLosses` | the automatic save: mapper and game on core 0, the worker loop on core 1, every atomic access, SRAM byte and file operation a step of its own | `NoEdgeLost`, `RecordedWriteRestoresSram`, `NothingSavedWhileOpen`, `UnrecordedFlushIsRetried`, `FlushCutIsAtomic`, `SkipRestoresIffClean`, `SaveIsAMixture`, `WorkerCatchesUp`, `TornFlush` |
| `SaveFile` | names, clock tail, `.TMP` then `.SAV`, restore on boot, a power cut after any operation | `CutPersistIsAtomic`, `CompleteTempIsNotEnough`, `NothingLeftIff`, `RestoredIsBest`, `TempNameIff` |
| `Crc32`, `OctetValues` | the table-driven CRC-32 of clause 3.2.9 of IEEE Std 802.3 | `Crc`, `BurstChangesImageCrc`, `FiveBytesCanCollide` |
| `SeedLink`, `SeqLock`, `CrystalBus`, `CrystalProtocol`, `CrystalRuns` | mailbox with epochs and a superseding LOCK, the 38-byte window published and read byte by byte, and client, core 0 and core 1 interleaved | `SuccessfulSendIsExact`, `NothingRunsTwice`, `ReentryIff`, `NeverTorn`, `TornAfter128`, `SendCanSucceed` |
| `Utf16`, `Utf8`, `ShortName`, `LongName`, `LongNameRuns`, `NameOrder`, `Directory` | FAT long names (section "FAT Long Directory Entries" of Microsoft's FAT overview 1.03) and the sorted scan of the SD root | `FinishIff`, `RoundTrip`, `FatSumIff`, `LongNameIff`, `ListingIff`, `BelowIsByteOrder` |
| `Arithmetic`, `Bits`, `Qr`, `Report`, `Screens` | the terminal's report, screen by screen, and a QR code packed, framed, refetched and painted | `ExportToScreen`, `PackedGridIsShown`, `OutputPageShowsOutput`, `WordScreenShowsMatches`, `SecretsAreNotShown` |
| `Rtc` | the MBC3 clock, firmware and host model | `AdvancedCounts`, `HostAgreesIff`, `HostAddsUpIff`, `NoSecondLost`, `HaltedTimeIsNotCounted` |
| `Mbc3` | the mapper with and without its fast path, beside the mailbox | `FastPathRefinesStep`, `MailboxIsInvisible`, `RegistersShowLastWrites` |
| `Psbt`, `Terminal`, `SeedTerminal`, `SignerRuns` | review policy, signing, the terminal and its worker | `PublicAtIff`, `SignedIff`, `AcceptedIff`, `AcceptedReviewIsHonest`, `SignedIsNotReviewedAgain`, `SigningIsEarned`, `OpensWhatIsShown` |
| `Typing`, `Browsing`, `Forgetting` | the terminal over runs of keys: against a plain editor, from file to file, and after LOCK | `TypedPhraseIsRecovered`, `RecoveryUsesWhatWasTyped`, `ShownAddressIsCurrent`, `FileWorkKeepsSession`, `PastIsForgotten` |
| `CrystalSigner` | that worker as core 1 of the Crystal exchange | `ApprovedPagesWereShown`, `PollsHappen` |

An object of the source is a class here. Each of its methods is proved against a function on the object's
value, and the theorems speak about those functions, over every sequence of calls or every interleaving.
Two-core protocols are step functions over one state; fields of that state that only record history are
named as such and never looked at by a step.

## Promises the code does not keep as written

- `cartridge-core/src/savefile.rs:150-152` says that boot loads `.TMP` when `.SAV` fails after `.TMP`
  succeeded. The code prefers a full `.SAV`, so a cut between closing `.TMP` and truncating `.SAV` still boots
  the old image (`SaveFile.CompleteTempStillBootsOld`). `SaveFile.CompleteTempIsNotEnough` gives the exact
  condition.
- `cartridge-core/src/save_coordinator.rs:16-20` says that the quiet period makes a second copy of SRAM
  unnecessary. A power loss during a flush boots the old image or this SRAM only while no save session has
  begun since the flush's generation (`SaveProtocol.FlushCutIsAtomic`). The flush writes live SRAM, so a
  session in the middle of writing `.SAV` leaves a file that is the beginning of the image the flush was
  for and the rest of the next one; a power loss then boots that mixture. `SaveLosses.TornFlush` gives the run
  for any three images and any position and says exactly when the mixture is none of the three;
  `SaveLosses.TornFlushExample` does it with two bytes.
- A save skipped because its CRC is the remembered one is only as good as the file the CRC stands for.
  There are two ways to lose it. When a flush has truncated `.SAV` and was not recorded, the skip fails for
  every content: unless a save session overlapped that write, boot restores an image with the CRC of SRAM if
  and only if the write was recorded (`SaveProtocol.SkipRestoresIffClean`, `SaveProtocol.BrokenSkipLosesSram`),
  and `SaveLosses.SkipAfterFailedFlushLosesData` is such a run with no concurrency in it, only one failed write.
  When a session overlapped the write, the skip fails up to coincidence: in
  `SaveLosses.SkipAfterOverlapLosesData` boot restores the overlapping save, which is the SRAM if and only if
  the two are equal. In general, `SaveProtocol.SkipIsRightIffCardMatches` says for every run that a skip is right
  if and only if the image on the card has the remembered CRC, which reading the file before the skip would
  tell; and `SaveMixtures.SaveIsAMixture` what that image is, however many sessions overlapped the flush.
- `cartridge-core/src/savefile.rs:77-88` makes a `<name>.TMP` only if the first eight characters take at most eight
  bytes in UTF-8; otherwise the suffix does not fit and is dropped (`SaveFile.TempNameIff`). ASCII names always get it.
- A long name with a lone surrogate is legal on disk but does not come back
  (`LongNameRuns.LoneSurrogateIsRefused`); every other one does (`LongNameRuns.RoundTrip`).
- The host clock stops at the day carry, the firmware clock does not. `Rtc.HostAgreesIff` says exactly when
  they agree. So time away may be counted in parts on the firmware (`Rtc.AdvancesAddUp`), on the host only if
  a part does not begin with the carry set (`Rtc.HostAddsUpIff`).
- `docs/architecture.md:27-28` says that LOCK supersedes the request under way. It does unless both have the same
  ticket. The game keeps its ticket in work RAM, which can be cleared while the cartridge goes on working:
  `CrystalProtocol.ReentryIff` says that a new session has every guarantee of the link if and only if its first
  ticket is not the one of the request still under way. Otherwise `CrystalProtocol.StaleTicketSwallowsLock`: the LOCK is
  dropped as a repetition, and the answer to the earlier request looks like the answer to it.
- The stamp check of the page window holds for fewer than 128 publications during one read and for no more
  (`SeqLock.TornAfter128`).
- Until the first RAM bank select the mapper's bank register says 1 while SRAM bank 0 is mapped
  (`Mbc3.RamPointerFollowsAfterSelect`).

## Model

| member | source | states |
|---|---|---|
| `SaveEngine.AutoSaveEngine.constructor` | cartridge-core/src/save_coordinator.rs:81-90 | a new engine has nothing pending, nothing on disk and no remembered CRC |
| `SaveEngine.AutoSaveEngine.IngestDirty` | cartridge-core/src/save_coordinator.rs:99-106 | the pending generation never goes back and the quiet period restarts |
| `SaveEngine.AutoSaveEngine.Poll` | cartridge-core/src/save_coordinator.rs:110-121 | a dirty poll is taken in before the decision is made from the new state |
| `SaveEngine.AutoSaveEngine.DecideNow` | cartridge-core/src/save_coordinator.rs:123-141 | the decision is the one specified by `Decide`, about which the two lemmas below speak |
| `SaveEngine.AutoSaveEngine.BeginPersist` | cartridge-core/src/save_coordinator.rs:143-147 | only marks a flush as under way |
| `SaveEngine.AutoSaveEngine.ShouldSkipIdentical` | cartridge-core/src/save_coordinator.rs:149-151 | skips exactly when a CRC is remembered and equal |
| `SaveEngine.AutoSaveEngine.OnSuccess` | cartridge-core/src/save_coordinator.rs:153-161 | the disk generation never goes back, the CRC is remembered, the flush is over |
| `SaveEngine.AutoSaveEngine.OnFailure` | cartridge-core/src/save_coordinator.rs:163-167 | the flush is over and nothing else changes, so it will be retried |
| `SaveEngine.AutoSaveEngine.OnRestored` | cartridge-core/src/save_coordinator.rs:169-172 | what was restored counts as saved |
| `SaveEngine.EngineTracksPolls` | cartridge-core/src/save_coordinator.rs:99-121 | after any history of calls, restores included, every field is what the history alone says: the highest generation announced, the last dirty poll, up to which generation saves are done, the last CRC, and whether a persist is unfinished |
| `SaveEngine.PersistOnlyWhenQuiet` | cartridge-core/src/save_coordinator.rs:123-141 | after any history, a persist is decided if and only if no persist is unfinished, the newest announced generation is not saved, SRAM is unmapped and the quiet period has passed since the last dirty poll; and it is for that generation |
| `SaveProtocol.InitialInv` | src/main.rs:724-733 | the invariant holds when boot has restored the game and core 1 starts |
| `SaveProtocol.Core0Inv` | cartridge-core/src/save_coordinator.rs:42-48 | each of the three atomic accesses of a publication keeps the invariant, so an edge is on its way from the moment the window closes |
| `SaveProtocol.PollInv` | src/main.rs:745-751 | handing the flag to the engine moves the edge into the pending generation, and a decision to persist is for that generation |
| `SaveProtocol.SkipInv` | src/main.rs:752-758 | a skip records the generation together with the CRC of the SRAM it stands for |
| `SaveProtocol.WriteByteInv` | cartridge-core/src/savefile.rs:290-316 | writing a byte keeps the file a prefix of SRAM and tail as long as no session has intervened |
| `SaveProtocol.WriteFailInv` | cartridge-core/src/savefile.rs:308-315 | a failed write or close keeps the invariant whatever part of the open file is left on the card |
| `SaveProtocol.EndInv` | src/main.rs:770-794 | only a flush that ends with the window closed is recorded; every other raises the dirty flag again |
| `SaveProtocol.StepInv` | src/main.rs:740-801 | every step of every party keeps the invariant of counters, flush, record and remembered CRC |
| `SaveProtocol.ExecInv` | src/main.rs:740-801 | so does every interleaving |
| `SaveProtocol.NoEdgeLost` | src/main.rs:741-745 | in every reachable state the newest generation is pending, or the dirty flag is set, or core 0 is about to set it, or core 1 holds it unpolled: no SRAM-disable edge is lost |
| `SaveProtocol.RecordedWriteRestoresSram` | src/main.rs:740-801 | at rest, if the newest generation was recorded by a write, the next boot restores exactly the SRAM the game left, in every interleaving with failures anywhere |
| `SaveProtocol.AtRestIsRecorded` | cartridge-core/src/save_coordinator.rs:153-161 | at rest the newest generation is on record, by a write or by a skip |
| `SaveProtocol.CleanSkipRestoresSameCrc` | src/main.rs:752-758 | after a skip, boot restores an image with the CRC of this SRAM, provided the last write of the file was clean |
| `SaveProtocol.BrokenSkipLosesSram` | src/main.rs:752-794 | after a skip, boot never restores this SRAM nor one of its CRC if the last write of `.SAV` was given up and no session overlapped it |
| `SaveProtocol.SkipRestoresIffClean` | src/main.rs:752-794 | unless a session overlapped the last write of `.SAV`, a skip can be trusted if and only if that write was recorded |
| `SaveProtocol.SkipIsRightIffCardMatches` | src/main.rs:752-758 | in every interleaving, whatever overlapped what: a skip is right if and only if the image boot would take has the remembered CRC, and keeps the save byte for byte if and only if that image is this SRAM |
| `SaveProtocol.CutBeforeSaveBootsOld` | cartridge-core/src/savefile.rs:153-171 | in every interleaving, until `.SAV` is truncated a power loss boots the old image, whatever the game does meanwhile |
| `SaveProtocol.FlushCutIsAtomic` | cartridge-core/src/save_coordinator.rs:16-20 | in every interleaving, at any moment of a flush that began with a full `.SAV`, a power loss boots the old image or this SRAM, and this SRAM once `.SAV` is being written, whatever part of an open file the card kept, as long as no session has begun since the flush's generation |
| `SaveSteps.NothingSavedWhileOpen` | src/main.rs:747-794 | in every interleaving, no sum is begun and no write is recorded in a state in which SRAM is enabled, and what is recorded is the generation of the flush that just ended |
| `SaveSteps.UnrecordedFlushIsRetried` | src/main.rs:770-794 | in every interleaving, a flush is recorded if and only if it ended well with SRAM disabled; otherwise disk generation, record and remembered CRC stay and the worker's next step raises the dirty flag |
| `SaveSteps.DecisionIsRechecked` | src/main.rs:747-751 | in every interleaving, a decision to save is dropped, with everything else as it was, if SRAM has been enabled since |
| `SaveSteps.GenerationCountsClosings` | cartridge-core/src/save_coordinator.rs:42-48 | in every interleaving, the generation is the number of times an open window was closed, but for the one core 0 is about to store |
| `SaveRuns.PollAlone` | src/main.rs:741-750 | an iteration that nothing interrupts ends in the decision of the engine on what it read |
| `SaveRuns.FlushAlone` | cartridge-core/src/savefile.rs:153-171 | an undisturbed flush leaves the SRAM and tail in both files and records the generation |
| `SaveRuns.ReachesHead` | src/main.rs:740-801 | the worker alone gets from anywhere in its loop back to the head |
| `SaveRuns.WorkerCatchesUp` | src/main.rs:740-801 | from every reachable state, wherever the worker is, with the game out of SRAM and core 0 idle, the worker alone, without errors, puts the newest generation on record and leaves SRAM alone |
| `SaveMixtures.SaveIsAMixture` | cartridge-core/src/savefile.rs:290-316 | in every interleaving with failures anywhere, `.SAV` is the file found at boot, or each of its SRAM bytes is the byte SRAM had at a moment after a flush opened the file, the moments never going back |
| `SaveMixtures.SkipKeepsSaveIffNothingMoved` | src/main.rs:752-794 | after an overlapped flush and a skip, boot restores this SRAM if and only if every byte is what it was at the moment the flush read it |
| `SaveLosses.TornFlush` | src/main.rs:762-794 | after boot with any `a`, a flush for any `b` and a session leaving any `c` once `k` bytes of `.SAV` are written, boot would restore `b[..k] + c[k..]`; that is one of the three exactly when `b` and `c` agree before or behind position `k`, or `a` is `b` before and `c` behind it |
| `SaveLosses.TornFlushExample` | cartridge-core/src/save_coordinator.rs:16-20 | with the real CRC and two bytes of SRAM, boot restores an image that neither was nor is in SRAM whole |
| `SaveLosses.SkipAfterOverlapLosesData` | src/main.rs:752-794 | for any three images: a save overlapped by a new session is recorded with the CRC taken before it, a later skip trusts that CRC, and boot restores the overlapping image, which is this SRAM if and only if they are equal |
| `SaveLosses.SkipAfterFailedFlushLosesData` | src/main.rs:752-794 | for any two images: a flush fails at any byte of `.SAV`, whatever the card keeps of it, the game saves the old image again, the skip trusts the CRC of the file that is gone, and boot restores the image of the failed flush |
| `SaveLosses.CleanSkipRestoresWithinBurst` | src/main.rs:752-758 | with the real CRC, a skip after a clean write restores this very SRAM unless it differs from the file in bytes more than four apart |
| `SaveFile.Base` | cartridge-core/src/savefile.rs:77-88 | the base is the part of the name before its first dot |
| `SaveFile.TempSaveName` | cartridge-core/src/savefile.rs:77-88 | the temporary name is at most eight characters of the base, up to its first space, in upper case, with the extension TMP |
| `SaveFile.TempNameDiffers` | cartridge-core/src/savefile.rs:77-88 | the temporary name never collides with a .SAV name, whatever its bytes are |
| `SaveFile.TempNameIff` | cartridge-core/src/savefile.rs:77-88 | the temporary name is the first eight characters before dot, space or zero, in upper case, with `.TMP`, if and only if these take at most eight bytes; otherwise it has no such suffix |
| `SaveFile.AsciiFits` | cartridge-core/src/savefile.rs:77-88 | an ASCII stem always fits, and only small letters change |
| `SaveFile.LittleEndianRoundTrip` | cartridge-core/src/savefile.rs:102-119 | eight bytes carry every 64-bit time back unchanged |
| `SaveFile.PackRtc` | cartridge-core/src/savefile.rs:102-108 | the tail is ten little-endian words of registers and the time |
| `SaveFile.PackRoundTrip` | cartridge-core/src/savefile.rs:102-119 | unpacking a packed tail gives back both register sets and the time |
| `SaveFile.UnpackRegister` | cartridge-core/src/savefile.rs:102-119 | the i-th 32-bit word of the tail is live register i, the one five words on latched register i |
| `SaveFile.Clock.ApplyTail` | cartridge-core/src/savefile.rs:125-138 | the saved registers are restored, and the clock is advanced by the time away, or not at all when the saved time lies in the future |
| `SaveFile.TimeAwayIsOwed` | cartridge-core/src/savefile.rs:125-138 | from save to restore, the registers come back and exactly the time in between is owed, if any |
| `SaveFile.Store.WriteSave` | cartridge-core/src/savefile.rs:290-316 | create or truncate, write, close: cut after any number of operations, the file holds at most what was written and, while it is open, no more of it than the card kept |
| `SaveFile.Store.PersistAtomic` | cartridge-core/src/savefile.rs:153-171 | `.TMP` first, `.SAV` only after `.TMP` is closed |
| `SaveFile.Store.RestoreBestInPlace` | cartridge-core/src/savefile.rs:211-254 | SRAM, registers and answer are those of the preferred file; without one nothing is touched |
| `SaveFile.RestoredIsBest` | cartridge-core/src/savefile.rs:173-254 | with any read errors, boot takes the better of the files whose length it can see, a whole image before bare SRAM and `.SAV` before `.TMP`, with its SRAM and its clock if that is whole; nothing if neither is of use; an error only if the read itself fails |
| `SaveFile.CutPersistIsAtomic` | cartridge-core/src/savefile.rs:153-254 | for an image that does not change while it is written, starting from a full `.SAV`, a persist cut anywhere boots exactly the old image or exactly the new one, the new one from the truncation of `.SAV` on, whatever part of an open file the card kept |
| `SaveFile.GoodPersistBoots` | cartridge-core/src/savefile.rs:153-204 | a persist reported good is what boot restores, from any card |
| `SaveFile.CompleteTempIsNotEnough` | cartridge-core/src/savefile.rs:150-204 | with `.TMP` complete, the new image boots if and only if `.SAV` has been truncated or the two images look alike |
| `SaveFile.CompleteTempStillBootsOld` | cartridge-core/src/savefile.rs:173-204 | the concrete case: cut right after `.TMP` was closed, boot takes the old `.SAV` |
| `SaveFile.NothingLeftIff` | cartridge-core/src/savefile.rs:153-204 | from any card, exactly when a cut persist leaves nothing to restore |
| `SaveFile.TwoCutsLoseBoth` | cartridge-core/src/savefile.rs:153-204 | cut while `.SAV` is rewritten and again while `.TMP` is: nothing is left |
| `SaveFile.SameBootSameBytes` | cartridge-core/src/savefile.rs:211-254 | boot hands over one image only, up to what the game and its clock can see |
| `Crc32.EightBits` | cartridge-core/src/save_coordinator.rs:197-215 | eight shifts of the loop are the eight-fold reflected step |
| `Crc32.Table` | cartridge-core/src/save_coordinator.rs:197-215 | entry i of the table is the reflected remainder of i |
| `Crc32.Crc` | cartridge-core/src/save_coordinator.rs:217-223 | the table-driven loop computes the bit-serial reflected CRC of every buffer |
| `Crc32.CheckValue` | cartridge-core/src/save_coordinator.rs:271-274 | the CRC of the digits 1 to 9 is 0xCBF43926, the check value of this CRC |
| `Crc32.TableStep` | cartridge-core/src/save_coordinator.rs:217-223 | a table look-up on the low byte is eight bit-serial steps |
| `Crc32.SerialLinear` | cartridge-core/src/save_coordinator.rs:217-223 | the register is linear in register and buffer |
| `Crc32.SerialConcat` | cartridge-core/src/save_coordinator.rs:217-223 | summing is incremental over concatenation |
| `Crc32.BurstChangesChecksum` | cartridge-core/src/save_coordinator.rs:149-151 | two buffers of equal length that differ only within four consecutive bytes have different CRCs |
| `Crc32.BurstChangesImageCrc` | cartridge-core/src/save_coordinator.rs:149-151 | the same for save images given as byte values: such a save is never skipped as identical |
| `Crc32.FiveBytesCanCollide` | cartridge-core/src/save_coordinator.rs:217-223 | four is exact: five consecutive bytes can change unnoticed |
| `SeedLink.Link.constructor` | cartridge-core/src/seed_link.rs:25-33 | an empty mailbox with a blank frame |
| `SeedLink.Link.Submit` | cartridge-core/src/seed_link.rs:34-58 | grants a new epoch to a fresh ticket when idle or when it is LOCK, recognises duplicates, refuses zero and busy |
| `SeedLink.AcknowledgedIff` | cartridge-core/src/seed_link.rs:34-58 | the answer to a submission is yes if and only if its ticket is then under way or is the one last answered |
| `SeedLink.Link.Take` | cartridge-core/src/seed_link.rs:59-61 | hands out the queued request and empties the slot |
| `SeedLink.Link.Finish` | cartridge-core/src/seed_link.rs:62-73 | only the active request is answered; report, at most 512 QR bytes and zero padding become the frame |
| `SeedLink.Link.Page` | cartridge-core/src/seed_link.rs:74-88 | the page is a function of the mailbox alone and changes nothing |
| `SeedLink.PageOf` | cartridge-core/src/seed_link.rs:74-88 | a page shows the acknowledged ticket, its index and version, zero status exactly when idle and in range, and the frame's slice or zeros |
| `SeedLink.FrameOf` | cartridge-core/src/seed_link.rs:66-69 | every frame has 640 bytes whatever the QR length |
| `SeedLink.FrameHolds` | cartridge-core/src/seed_link.rs:66-69 | byte by byte the frame is the report, at most 512 bytes of the code, and zeros |
| `SeedLink.QueuedIsActiveAndTakenOnce` | cartridge-core/src/seed_link.rs:34-73 | over every run, a queued request is the active one, the active one the latest granted, and each granted request is handed out at most once |
| `SeedLink.LockBlanksEveryPage` | cartridge-core/src/seed_link.rs:34-88 | from the acceptance of a LOCK until a LOCK finishes, every page payload is zero whatever late completions arrive |
| `SeedLink.LockingPersists` | cartridge-core/src/seed_link.rs:34-73 | nothing but a finished LOCK ends that phase |
| `SeedLink.LockTakesOverIffTicketDiffers` | cartridge-core/src/seed_link.rs:34-58 | a LOCK supersedes whatever is active if and only if its ticket is a different one |
| `SeqLock.BeginInv` | src/crystal_seed.rs:46-60 | a publication starts with a fresh stamp two higher and leaves the window alone |
| `SeqLock.StoreInv` | src/crystal_seed.rs:52-59 | each of the 39 stores keeps the window a marked prefix of the page or a whole page |
| `SeqLock.ReaderInvUnderStore` | src/crystal_seed.rs:52-59 | a store never makes a copy in progress look newer than it is |
| `SeqLock.AcceptedIsOnePublication` | integrations/pokecrystal/native/seed.asm:169-201 | a copy that passes the checks while fewer than 128 publications began is one publication, and none began meanwhile |
| `SeqLock.NeverTorn` | integrations/pokecrystal/native/seed.asm:169-201 | in every interleaving, an accepted page is one published page for the index asked for, in full |
| `SeqLock.TornAfter128` | src/crystal_seed.rs:48-50 | with 128 publications during one read a page that was never published is accepted |
| `SeqLock.PublishOnce` | src/crystal_seed.rs:46-60 | an undisturbed publication ends with exactly the stamped page in the window |
| `CrystalBus.MarkerOffset` | cartridge-core/src/seed_link.rs:89-93 | the window starts behind the first marker that leaves room for a page, or there is none |
| `CrystalBus.MarkerAtIff` | cartridge-core/src/seed_link.rs:89-93 | a marker counts if and only if it is the bytes CSD2 and 1 with a whole page behind them |
| `CrystalBus.Bus.constructor` | src/crystal_seed.rs:29-36 | the bus uses the window of this ROM, if it has one |
| `CrystalBus.Bus.Write` | src/crystal_seed.rs:37-65 | the three mailbox addresses latch, submit and publish, every other write is left to the mapper; a publication changes the 38 window bytes to the stamped page and no other ROM byte |
| `CrystalBus.Bus.Copy` | src/crystal_seed.rs:51-60 | marking, copying and committing leaves the page in the window |
| `CrystalBus.ReadPage` | integrations/pokecrystal/native/seed.asm:169-201 | the reader accepts a quiet window exactly when stamp, version and index fit, and then holds its bytes |
| `CrystalBus.AcceptableIff` | integrations/pokecrystal/native/seed.asm:169-201 | the reader takes a quiet window if and only if it is laid out as a committed page of that index |
| `CrystalBus.PublishedIsAcceptable` | integrations/pokecrystal/native/seed.asm:169-201 | a published page is accepted for the index it was asked for and for no other |
| `CrystalBus.Fetch` | integrations/pokecrystal/native/seed.asm:169-201 | request and read, undisturbed, deliver the mailbox's page |
| `CrystalBus.BusRefinesPort` | src/crystal_seed.rs:46-60 | the object's publication is an undisturbed run of the interleaved window |
| `CrystalProtocol.InitInv` | integrations/pokecrystal/native/seed.asm:59-70 | the invariant holds at entry, whatever ticket byte is in work RAM and whatever earlier sessions left in the mailbox and with core 1, unless a request is under way under the ticket this session uses first |
| `CrystalProtocol.StepInv` | integrations/pokecrystal/native/seed.asm:203-294 | every step of client, core 0 and core 1 keeps it |
| `CrystalProtocol.Exec` | src/crystal_seed.rs:78-142 | so does every interleaving |
| `CrystalProtocol.NextTicketIsGranted` | cartridge-core/src/seed_link.rs:34-58 | under the client's discipline the next ticket always starts a new request |
| `CrystalProtocol.AcceptedJobIsLatest` | cartridge-core/src/seed_link.rs:62-65 | a completion is accepted only for the latest ticket |
| `CrystalProtocol.AcceptedCopy` | integrations/pokecrystal/native/seed.asm:169-201 | an accepted copy is the page last begun, and core 0 lags fewer than 255 tickets behind |
| `CrystalProtocol.WaitingSeesItsAnswer` | integrations/pokecrystal/native/seed.asm:216-228 | an idle page with the client's ticket is the answer to this very send, and stays it |
| `CrystalProtocol.FetchSeesItsAnswer` | integrations/pokecrystal/native/seed.asm:246-288 | every page published while fetching comes from that one frame |
| `CrystalProtocol.SuccessfulSendIsExact` | integrations/pokecrystal/native/seed.asm:203-294 | in every interleaving, after whatever earlier sessions left, after a successful send the command ran exactly once and work RAM holds exactly the report stored for that send, and its QR bytes if it announces any |
| `CrystalProtocol.NothingRunsTwice` | integrations/pokecrystal/native/seed.asm:203-294 | successful or not, no send runs twice, commands run in sending order, and none but LOCK runs before its predecessor was answered |
| `CrystalProtocol.ReentryIff` | cartridge-core/src/seed_link.rs:34-73 | from every state of a session, the next one starts with all of this if and only if its first ticket is not that of the request under way |
| `CrystalProtocol.ReachedReentryIff` | cartridge-core/src/seed_link.rs:34-73 | the same for every run, so sessions follow each other |
| `CrystalProtocol.StaleTicketSwallowsLock` | cartridge-core/src/seed_link.rs:34-73 | otherwise the mailbox drops the first LOCK, and the finished earlier request shows the client its own ticket, nothing under way and the earlier report |
| `CrystalProtocol.FinishLeftoverInv` | cartridge-core/src/seed_link.rs:62-73 | core 1 may finish the request of an earlier session without anything of this one being disturbed |
| `CrystalRuns.PageRound` | integrations/pokecrystal/native/seed.asm:249-285 | an undisturbed page round is accepted and moves the client on |
| `CrystalRuns.SendCanSucceed` | integrations/pokecrystal/native/seed.asm:203-288 | from every reachable resting state, every command the client may send has a run that delivers any answer of the worker |
| `CrystalRuns.GivesUpAfter1200` | integrations/pokecrystal/native/seed.asm:203-294 | in every interleaving a send that waits is given up at the 1200th page that is not its answer and not before, and one that fetches at the first page that is not accepted |
| `Utf16.DecodesIffWellFormed` | src/sd_lfn.rs:78 | units decode if and only if their surrogates are paired, and then encode back to themselves |
| `Utf16.EncodeDecodes` | src/sd_lfn.rs:78 | every text survives encoding and decoding |
| `LongName.LongNameParser.constructor` | src/sd_lfn.rs:12-19 | a new parser expects nothing |
| `LongName.LongNameParser.ResetName` | src/sd_lfn.rs:20-23 | a reset parser expects nothing, whatever units it still holds |
| `LongName.LongNameParser.Slot` | src/sd_lfn.rs:24-54 | a first slot starts over, a fitting slot stores its thirteen units in place, anything else resets |
| `LongName.LongNameParser.Finish` | src/sd_lfn.rs:55-79 | a name comes back only for a complete chain with the short entry's checksum, and the parser is reset either way |
| `ShortName.TurnedIff` | src/sd_lfn.rs:56-58 | one turn of the checksum takes bit i + 1 to bit i and bit 0 to bit 7 |
| `ShortName.FatSumIff` | src/sd_lfn.rs:56-58 | the computed checksum is the one FAT defines by turning and adding, bit by bit, and no other |
| `LongName.LongNameParser.Read` | src/sd_lfn.rs:65-78 | the terminator search and the padding checks accept exactly the laid-out names |
| `LongName.SlottedWf` | src/sd_lfn.rs:24-54 | every index stays within the 260 units |
| `LongName.SpelledIff` | src/sd_lfn.rs:65-78 | a name is spelled if and only if 1 to 255 units, none 0x0000 or 0xffff, are followed by one zero and then 0xffff as far as there is room, and are well-formed UTF-16 |
| `LongNameRuns.FinishIff` | src/sd_lfn.rs:24-79 | in every run of the parser, `finish` returns a name if and only if the last N calls were slots N down to 1, only the first flagged 0x40, all with the short entry's checksum, spelling that name |
| `LongNameRuns.ChainIsTaken` | src/sd_lfn.rs:24-54 | a chain is taken from any earlier state |
| `LongNameRuns.BusyHoldsChain` | src/sd_lfn.rs:24-54 | a parser that is not idle holds the chain made by its last calls |
| `LongNameRuns.RoundTrip` | signer-probe/tests/sd_psbt.rs:284-319 | from any earlier state, a name of 1 to 255 units without 0x0000 and 0xFFFF, encoded into slots with the FAT checksum of its short entry, comes back unchanged if and only if its surrogates are paired |
| `LongNameRuns.TextRoundTrip` | signer-probe/tests/sd_psbt.rs:284-319 | every text of fitting length comes back as it was |
| `LongNameRuns.LoneSurrogateIsRefused` | src/sd_lfn.rs:78 | a single lone surrogate is a name that does not come back |
| `LongNameRuns.SlotBytesUnits` | signer-probe/tests/sd_psbt.rs:297-311 | the thirteen places written by the encoder are the ones read by the parser |
| `LongNameRuns.SlotFormIff` | src/sd_lfn.rs:25-48 | a slot is plausible if and only if its bytes have the form of the table of FAT |
| `NameOrder.SortedIsStable` | src/sd_psbt.rs:92 | sorting loses no file, orders them by name and keeps files of equal names in their order |
| `NameOrder.SortIsUnique` | src/sd_psbt.rs:92 | a listing is a stable sort by name if and only if it is this one |
| `Utf8.BelowIsByteOrder` | src/sd_psbt.rs:92 | the order of names by their characters is the order of their UTF-8 bytes, in which the library compares |
| `Directory.Scan` | src/sd_psbt.rs:44-89 | the loop finds the files contributed by each entry on its own, or too many exactly when more than 4096 entries or 32 files are met |
| `Directory.List` | src/sd_psbt.rs:27-94 | the listing is those files sorted by name, or the error of opening, of the limit or of a directory that cannot be read to its end, in this order |
| `Directory.ListingIff` | src/sd_psbt.rs:27-94 | a listing comes back if and only if the directory could be read to its end within 4096 entries of which at most 32 contribute a file, and it is their stable sort by name |
| `Directory.FileAtIff` | src/sd_psbt.rs:50-59 | an entry contributes a file if and only if it is neither deleted nor a slot and its own bytes, under its long name, make one |
| `Directory.ContributionIff` | src/sd_psbt.rs:60-88 | which file a short entry makes: no directory, label, hidden or system file; its long name or alias, its short name and little-endian size; and only names that are no dot files and end in psbt or psb in any case |
| `Directory.OfferedIff` | src/sd_psbt.rs:60-88 | which names are offered, by what is behind the last dot |
| `Directory.AliasIs` | src/sd_psbt.rs:60-88 | the alias is the base of eight and, behind a dot, the extension of three, without padding |
| `Directory.LongNameIff` | src/sd_psbt.rs:44-58 | a file gets a long name if and only if the entries right before its short entry are a whole chain with its checksum spelling that name |
| `Directory.SlotsAreNotShared` | src/sd_psbt.rs:50-58 | the slots of a name lie behind the previous short entry, so they attach to no other file |
| `Directory.EncodedEntriesAreListed` | signer-probe/tests/sd_psbt.rs:284-319 | behind any directory content, an encoded name and its short entry are listed under that name |
| `Qr.PackQr` | signer-probe/src/terminal.rs:141-151 | bit i of the buffer is module (i mod size, i div size), and nothing is set behind the last |
| `Qr.SeedQRPixel` | integrations/pokecrystal/native/seed.asm:1574-1623 | exactly this pixel is lit, in both planes |
| `Qr.SeedQRModule` | integrations/pokecrystal/native/seed.asm:1545-1573 | exactly the 2 x 2 block of this module is lit |
| `Qr.SeedDrawQR` | integrations/pokecrystal/native/seed.asm:1361-1398 | the lit pixels are those of the modules set in the report |
| `Qr.AddrBound` | integrations/pokecrystal/native/seed.asm:1575-1604 | every tile address is inside the 2704 bytes |
| `Qr.AddrInjective` | integrations/pokecrystal/native/seed.asm:1575-1604 | two pixels share a byte exactly when they are in the same row of eight |
| `Qr.EveryBitIsAPixel` | integrations/pokecrystal/native/seed.asm:1575-1604 | every bit of the tile memory is one of the 104 x 104 pixels |
| `Qr.BlockIffCell` | integrations/pokecrystal/native/seed.asm:1546-1564 | a pixel belongs to the block of a module exactly when its cell is that module's running number |
| `Qr.PackedGridIsShown` | integrations/pokecrystal/native/seed.asm:1361-1398 | painting a packed grid lights exactly the centred 2 x 2 block of each dark module and nothing else |
| `Qr.CentredOnScreen` | integrations/pokecrystal/native/seed.asm:1418-1431 | the code is symmetric about the centre of the 160 x 144 screen |
| `Qr.Refetch` | integrations/pokecrystal/native/seed.asm:246-288 | the pages fetched are the frame's first 128 bytes, or 352 when a QR code is announced |
| `Qr.ShowQr` | integrations/pokecrystal/native/seed.asm:246-288 | for every odd size from 21 to 41, a packed grid that a report announces, framed, refetched and painted, appears as it was |
| `Report.MakeReport` | signer-probe/src/terminal.rs:503-596 | the 128 bytes of the report, field by field for every screen, with no index out of range |
| `Report.OutputPageShowsOutput` | signer-probe/src/terminal.rs:570-581 | a review page shows its own output: amount and address in full, change or output, page number and number of pages |
| `Report.FeePageShowsFee` | signer-probe/src/terminal.rs:582-584 | the fee page carries its title, its page number and the fee in full |
| `Report.FilePageShowsAlias` | signer-probe/src/terminal.rs:531-564 | the list shows the short name of the selected file in full |
| `Screens.WordScreenShowsMatches` | signer-probe/src/terminal.rs:503-516 | from any state and after any keys, the screen of words tells how many there are to be and how many are in, the letters typed, the match CHOOSE would take and the two behind it |
| `Screens.FileIsShown` | signer-probe/src/terminal.rs:531-562 | the screen of a file shows which of how many it is, its part of the name, so that the pages together show all of it, its short name and size |
| `Screens.IdentityIsShown` | signer-probe/src/terminal.rs:517-520 | a recovered identity is on screen as the libraries gave it, the address in full |
| `Screens.MessageIsShown` | signer-probe/src/terminal.rs:591-593 | an error or a saved file shows its message |
| `Screens.SecretsAreNotShown` | signer-probe/src/terminal.rs:502-596 | no screen tells words already chosen, characters of the passphrase or the seed |
| `Report.DecimalStandsFor` | signer-probe/src/terminal.rs:580-584 | the digits shown stand for the number |
| `Report.QrScreenAnnouncesSize` | signer-probe/src/terminal.rs:523-526 | a ready code announces its state and size where the client looks |
| `Report.ExportToScreen` | signer-probe/src/terminal.rs:128-154 | from the export command to the screen: the account's code appears on the tiles exactly as the library made it, for every odd size from 21 to 41 |
| `Rtc.GbRtc.ProcessTick` | src/gb_rtc.rs:102-126 | one second on the registers, with every wrap |
| `Rtc.GbRtc.AdvanceBySeconds` | src/gb_rtc.rs:264-276 | n ticks unless halted |
| `Rtc.GbRtc.Process` | src/gb_rtc.rs:155-190 | one call resumes from a halt at the present, counts at most one millisecond and one second, and masks the registers |
| `Rtc.TickCounts` | src/gb_rtc.rs:102-126 | a tick adds one second modulo 512 days, raises the carry exactly at the end of day 511 and touches no other bit |
| `Rtc.AdvancedCounts` | src/gb_rtc.rs:264-276 | on valid registers n ticks take the encoded time T to T + n modulo 512 days and raise the sticky carry exactly when T + n reaches 512 days |
| `Rtc.LaterIff` | src/gb_rtc.rs:264-276 | time away makes nothing of halted registers and exactly the arithmetic above of running ones |
| `Rtc.AnyTick` | src/gb_rtc.rs:102-126 | registers that show no valid time run on to their last value and wrap without a carry; only 59, 59 and 23 carry |
| `Rtc.MaskIff` | src/gb_rtc.rs:185-188 | masking keeps the bits that exist and clears the others |
| `Rtc.RegistersAreTheirTime` | src/gb_rtc.rs:28-54 | time, carry and the untouched status bits determine the registers |
| `Rtc.AdvancesAddUp` | src/gb_rtc.rs:264-276 | advancing twice is advancing once by the sum |
| `Rtc.HostRtc.AdvanceBySeconds` | cartridge-core/src/rtc.rs:100-127 | the host ticks until it has seen the carry, at least once, and masks at the end |
| `Rtc.HostAgreesIff` | cartridge-core/src/rtc.rs:100-127 | host and firmware agree if and only if the host's number of ticks is n modulo 512 days |
| `Rtc.HostAgreesWithoutCarry` | cartridge-core/src/rtc.rs:100-127 | they agree whenever the carry starts clear and stays clear |
| `Rtc.HostStopsAtCarry` | cartridge-core/src/rtc.rs:111-117 | whenever the wrap is passed with the carry clear, the host stands at the wrap and the firmware as far beyond it as asked |
| `Rtc.HostAddsUpIff` | cartridge-core/src/rtc.rs:100-127 | on the host advancing twice is advancing once by the sum if and only if the clock is halted, a part is empty, or the first part ends without the carry |
| `Rtc.NextInv` | src/gb_rtc.rs:155-190 | in every run, halted or not, the clock is never asked for the time since a moment ahead |
| `Rtc.NoSecondLost` | src/gb_rtc.rs:155-190 | in every never-halted run with a nondecreasing clock, last_milli is 1000 (1000 ticks + millies) and not ahead of the time |
| `Rtc.HaltedTimeIsNotCounted` | src/gb_rtc.rs:155-190 | in every run with any halts, last_milli is 1000 (1000 ticks + millies) plus what was skipped at the resumptions, and no more is counted than the time between calls that both found the clock running |
| `Rtc.HaltStops` | src/gb_rtc.rs:163-168 | a call that finds the clock halted leaves counting point, milliseconds and registers where they are |
| `Rtc.ProcessMoves` | src/gb_rtc.rs:163-182 | a call that finds the clock resumed puts the counting point at the present; any other running call counts one millisecond if and only if more than one has passed |
| `Rtc.RegistersMoveByTicks` | src/gb_rtc.rs:155-190 | the registers move by the seconds counted and by nothing else |
| `Rtc.RegistersCount` | src/gb_rtc.rs:155-190 | the registers then show the starting time plus the seconds counted |
| `Rtc.CatchesUp` | src/gb_rtc.rs:169-176 | a deferred clock catches up one millisecond per call |
| `Rtc.KeepsUp` | src/gb_rtc.rs:169-176 | processed every millisecond, it is never more than one behind |
| `Mbc3.Mbc3State.constructor` | src/gb_mbc.rs:173-181 | ROM bank 1, bank register 1, RAM disabled |
| `Mbc3.Mbc3State.Step` | src/gb_mbc.rs:190-261 | a write changes the register of its region, the pointers and the control calls as specified |
| `Mbc3.Mbc3State.SelectRom` | src/gb_mbc.rs:334-345 | the fast path writes pending bank, bank and ROM pointer and nothing else |
| `Mbc3.Mbc3State.StepAndPublish` | src/gb_mbc.rs:352-366 | the full step and the publication of the window transition |
| `Mbc3.Mbc3.Serve` | src/gb_mbc.rs:326-367 | one loop iteration: ROM bank selects by the fast path, the three mailbox addresses to the mailbox while the mapper stands still, and everything else to the mapper while mailbox and window stand still |
| `Mbc3.MailboxIsInvisible` | src/gb_mbc.rs:346-350 | over every bus trace the mapper beside a mailbox is where the state machine gets on the writes that are not the mailbox's |
| `Mbc3.ServedIsStepped` | src/gb_mbc.rs:334-345 | the shortcut is equal to the full step and keeps the invariant |
| `Mbc3.FastPathRefinesStep` | src/gb_mbc.rs:317-368 | over every bus trace the loop reaches the state, pointers, calls and atomics of the step alone, and the last RAM control call fits enable flag and bank bit 3 |
| `Mbc3.RegistersShowLastWrites` | cartridge-core/src/mbc3.rs:54-130 | every register is the last write to its region, the RAM pointer the last non-RTC select, and the generation counts the writes that closed an open window |
| `Mbc3.ClockIsCalledAsAsked` | src/gb_mbc.rs:219-250 | over every trace the clock is latched exactly on the rising edges and its registers are activated exactly as selected |
| `Mbc3.RamIsCalledAsAsked` | src/gb_mbc.rs:190-250 | over every trace SRAM is enabled, disabled and exchanged for the clock call by call as the writes asked |
| `Mbc3.RamPointerFollowsAfterSelect` | src/gb_mbc.rs:173-181 | register and RAM pointer agree if and only if the last bank select was one of RAM |
| `Psbt.SeedSession.Lock` | signer-probe/src/seed.rs:153-156 | the seed bytes are zeroed and the session is locked |
| `Psbt.SeedSession.Derive` | signer-probe/src/seed.rs:267-274 | the step-by-step derivation is the derivation along the path, of which the next two lemmas say which node it reaches |
| `Psbt.DerivedIffLeads` | signer-probe/src/seed.rs:267-274 | the node reached is the end of the one chain from the master in which each node is the child of the one before under the path's own next number |
| `Psbt.SeedSession.PublicKeyAt` | signer-probe/src/seed.rs:254-276 | keys only inside account zero of this session's coin, branch 0 or 1, index at most 1000 |
| `Psbt.PublicAtIff` | signer-probe/src/seed.rs:254-276 | a session gives a key for a path if and only if it is unlocked, the path is m/84'/coin'/0'/branch/index of its own coin with branch at most 1 and index at most 1000, and the key is the public key of the node at the end of that chain |
| `Psbt.SeedSession.ReviewPsbt` | signer-probe/src/seed.rs:279-411 | the review or the first failing check is the one specified |
| `Psbt.SeedSession.CheckInput` | signer-probe/src/seed.rs:298-348 | the checks of the input in their order |
| `Psbt.SeedSession.CheckOutputs` | signer-probe/src/seed.rs:349-387 | the outputs one by one, with the running total |
| `Psbt.SeedSession.SignPsbt` | signer-probe/src/seed.rs:417-468 | the signed transaction or the first error is the one specified |
| `Psbt.AcceptedReviewIsHonest` | signer-probe/src/seed.rs:349-395 | amounts and fee add up to the input, the fee is at most 1,000,000 sat, addresses and amounts are the transaction's, and an output is marked change if and only if a session key on branch 1 with index at most 1000 pays it |
| `Psbt.AcceptedIff` | signer-probe/src/seed.rs:279-411 | a transaction is accepted if and only if it meets the policy stated as one condition: size, shape, our unsigned input with its right previous output, showable outputs with right metadata, fee between 0 and 1,000,000 sat |
| `Psbt.NetworkMismatchIff` | signer-probe/src/seed.rs:298-330 | the player is told of the other network if and only if shape, seed and signature state are in order and the input's path is the account of the other coin |
| `Psbt.AcceptedInputIsOurs` | signer-probe/src/seed.rs:298-348 | the input pays the session's own key, is unsigned and to be signed with SIGHASH_ALL |
| `Psbt.SigningAddsOneSignature` | signer-probe/src/seed.rs:454-467 | signing an accepted review changes one partial signature, made by the node the reviewed path leads to over the reviewed digest, which verifies, and nothing else |
| `Psbt.SignedIff` | signer-probe/src/seed.rs:417-468 | what comes out of signing, if and only if: the bound transaction with the signature of the node that the bound path leads to over the bound digest |
| `Psbt.AcceptedReviewSigns` | signer-probe/src/seed.rs:417-468 | the session that accepted a review can always sign it |
| `Psbt.DriftIsRefused` | signer-probe/src/seed.rs:433-443 | what is signed has the reviewed digest |
| `Psbt.SignedIsNotReviewedAgain` | signer-probe/src/seed.rs:305-310 | every session refuses a signed transaction, and with which error |
| `Psbt.LockedRefuses` | signer-probe/src/seed.rs:162-165 | a locked session reviews and signs nothing |
| `Terminal.CommandInv` | signer-probe/src/terminal.rs:182-373 | every command keeps prefix, candidate, slot, passphrase, file, name page, review page and address in range |
| `Terminal.RecoveredInv` | signer-probe/src/terminal.rs:375-410 | so does recovery, successful or not |
| `Terminal.CallbacksInv` | signer-probe/src/terminal.rs:411-436 | so do listing, errors and the saved callback, even out of turn |
| `Terminal.LoadedInv` | signer-probe/src/terminal.rs:437-454 | so does loading |
| `Terminal.FinishedSigningInv` | signer-probe/src/terminal.rs:455-480 | so does signing |
| `Terminal.ShorterMatches` | signer-probe/src/terminal.rs:174-181 | a shorter prefix matches at least as much, so deleting never empties the candidates |
| `SeedTerminal.SeedTerminal.constructor` | signer-probe/src/terminal.rs:86-112 | a new terminal is locked and blank |
| `SeedTerminal.SeedTerminal.Command` | signer-probe/src/terminal.rs:182-373 | the object does what the specified command does, with every index in range |
| `SeedTerminal.SeedTerminal.Begin` | signer-probe/src/terminal.rs:183-209 | LOCK and the four beginnings wipe entry, identity, files, review, seed and QR |
| `SeedTerminal.SeedTerminal.Files` | signer-probe/src/terminal.rs:232-257 | file and page selection, and opening |
| `SeedTerminal.SeedTerminal.ReviewPages` | signer-probe/src/terminal.rs:258-273 | pages move one at a time; approval only on the last |
| `SeedTerminal.SeedTerminal.VerifyNext` | signer-probe/src/terminal.rs:158-173 | the next address is shown, or the index goes back; `Browsing.ShownAddressIsCurrent` says which address that is |
| `SeedTerminal.SeedTerminal.ExportQr` | signer-probe/src/terminal.rs:283-290 | a fitting code is packed, any failure leaves no code behind |
| `SeedTerminal.SeedTerminal.EnterWord` | signer-probe/src/terminal.rs:301-353 | typing, deleting, turning, choosing and going back |
| `SeedTerminal.SeedTerminal.EnterPass` | signer-probe/src/terminal.rs:354-372 | typing and deleting of the passphrase |
| `SeedTerminal.SeedTerminal.FinishRecovery` | signer-probe/src/terminal.rs:375-410 | the phrase of the chosen words and the typed passphrase are recovered, as the rows of `Typing` say; success forgets what was typed |
| `SeedTerminal.SeedTerminal.MakePhrase` | signer-probe/src/terminal.rs:379-385 | the words in order with single spaces |
| `SeedTerminal.SeedTerminal.SetFiles` | signer-probe/src/terminal.rs:411-427 | one to 32 files are shown from the first, otherwise an error |
| `SeedTerminal.SeedTerminal.LoadPsbt` | signer-probe/src/terminal.rs:437-454 | an accepted review starts at its first page |
| `SeedTerminal.SeedTerminal.FinishSigning` | signer-probe/src/terminal.rs:455-480 | the review is consumed whether or not bytes leave |
| `SeedTerminal.SeedTerminal.PsbtError` | signer-probe/src/terminal.rs:431-436 | an error drops files and review |
| `SeedTerminal.SeedTerminal.PsbtSaved` | signer-probe/src/terminal.rs:481-486 | only a save in progress is reported saved |
| `Typing.TypingIsFollowed` | signer-probe/src/terminal.rs:301-410 | from any state and for every sequence of keys and recoveries, the terminal holds what a plain text editor with words, letters and a passphrase holds |
| `Typing.RecoveryUsesWhatWasTyped` | signer-probe/src/terminal.rs:375-410 | recovery uses exactly the words in that editor, joined by single spaces, its passphrase and the network of the beginning; it succeeds if and only if these are a valid phrase, shows that very session's identity and erases what was typed |
| `Typing.TypedPhraseIsRecovered` | signer-probe/src/terminal.rs:301-410 | from any state: a beginning, the keys that enter any words by any of their first letters, the keys of any passphrase, and RECOVER give the seed of these words, this passphrase and that network |
| `Typing.DeletedKeysDoNotMatter` | signer-probe/src/terminal.rs:318-372 | a letter or character taken back with DELETE leaves no trace, wherever it comes in a run |
| `Typing.WithdrawnWordsDoNotMatter` | signer-probe/src/terminal.rs:336-372 | a whole word taken back with BACK leaves no trace, the last one included |
| `Browsing.FilesGoRound` | signer-probe/src/terminal.rs:232-257 | after any walk the file on screen is the one so many places on, counted in circles |
| `Browsing.NamePagesTurn` | signer-probe/src/terminal.rs:232-257 | the pages of a name turn one by one up to the last |
| `Browsing.NamePagesTurnBack` | signer-probe/src/terminal.rs:232-257 | and back to the first |
| `Browsing.ReviewPagesTurn` | signer-probe/src/terminal.rs:258-273 | the pages of a review turn one by one up to the approval behind outputs and fee |
| `Browsing.ReviewPagesTurnBack` | signer-probe/src/terminal.rs:258-273 | and back to the first |
| `Browsing.ShownAddressIsCurrent` | signer-probe/src/terminal.rs:158-173 | in every run, whenever a seed is in use, the address on screen is its receive address of the current index |
| `Browsing.NextAddressShown` | signer-probe/src/terminal.rs:278-282 | the index goes on by one, from 1000 to 0, and stays if that address cannot be derived |
| `Browsing.FileWorkKeepsSession` | signer-probe/src/terminal.rs:210-273 | whatever is listed, opened, reviewed, signed or goes wrong, in any order, leaves seed, network, identity, address and export alone, and CANCEL leads back |
| `Browsing.ExportAndBack` | signer-probe/src/terminal.rs:283-295 | an export that is left again leaves nothing but a blank code |
| `Browsing.FilesComeIff` | src/crystal_seed.rs:98-116 | files come on screen if and only if the player asked and the card has 1 to 32 of them |
| `Browsing.ReviewComesIff` | src/crystal_seed.rs:117-129 | a review comes on screen if and only if the file on screen was opened, read and accepted, at its first page |
| `Browsing.RefusalIsSaid` | src/crystal_seed.rs:117-129 | a file that is opened and refused says why, one that cannot be read says so |
| `Browsing.SavedIff` | src/crystal_seed.rs:130-137 | a file is reported saved, by its name, if and only if signed bytes left and the card took them |
| `Browsing.ScannedCardIsShown` | src/crystal_seed.rs:98-116 | whatever the directory scan returns is shown in full, or said to be empty or unreadable |
| `Forgetting.PastIsForgotten` | signer-probe/src/terminal.rs:183-209 | after LOCK or a new beginning, two workers with any pasts show the same screens and codes, open the same files and sign the same bytes through every later sequence of polls, if for LOCK the network in use was the same |
| `Forgetting.NetworkIsNot` | signer-probe/src/terminal.rs:183-210 | that much is needed: the locked screen still tells whether mainnet was in use |
| `Forgetting.NothingIsLeft` | signer-probe/src/terminal.rs:114-125 | no byte of words, passphrase, identity or code is left in memory, and no seed |
| `SignerRuns.Exec` | signer-probe/src/terminal.rs:182-486 | every run over all commands and callbacks keeps every index in range |
| `SignerRuns.SigningIsEarned` | signer-probe/src/terminal.rs:258-273 | bytes leave only for the review accepted by the last load, with every page seen since, under the same seed, for the first time, and they are its signature |
| `SignerRuns.SignsAtMostOncePerLoad` | signer-probe/src/terminal.rs:455-480 | in every run at most one signed transaction leaves per load |
| `SignerRuns.SignedBytesCarryOneSignature` | signer-probe/src/terminal.rs:455-480 | what leaves is the transaction walked through with one valid signature added |
| `SignerRuns.WalkingThroughSigns` | signer-probe/src/terminal.rs:258-273 | loading an acceptable transaction, paging to the end and approving makes it leave signed |
| `SignerRuns.Worker.Poll` | src/crystal_seed.rs:91-137 | one poll is the command followed by the callback its state asks for |
| `SignerRuns.PollIsRun` | src/crystal_seed.rs:78-142 | a poll is a run of commands and callbacks, so all of the above holds of the worker |
| `SignerRuns.PolledInv` | src/crystal_seed.rs:78-142 | between polls no work is left over and the aliases are those of the files on screen |
| `SignerRuns.OpensWhatIsShown` | src/crystal_seed.rs:119-134 | a file is opened if and only if it was chosen from the list, and it is the one on screen |
| `CrystalSigner.Core1.Poll` | src/crystal_seed.rs:78-142 | the whole poll: the queued request, if any, is taken, performed, and answered with the terminal's report and QR buffer |
| `CrystalSigner.TurnIsServeThenAnswer` | src/crystal_seed.rs:88-139 | that poll is the two steps of core 1 in the joint runs, between which core 0 may act |
| `CrystalSigner.StepInv` | src/crystal_seed.rs:78-142 | every step of client, core 0 and core 1 with the terminal keeps the joint invariant: the polls are the jobs that ran, every answer is the report of its poll, and what work RAM has held is the answer |
| `CrystalSigner.BackToLoad` | signer-probe/src/terminal.rs:258-273 | from a review on screen back to the poll that loaded it: the same review and seed throughout, and every page up to the present one shown |
| `CrystalSigner.PredecessorWasShown` | integrations/pokecrystal/native/seed.asm:203-294 | when core 1 performs a command other than LOCK, work RAM has held the report of the poll just before it |
| `CrystalSigner.ApprovedPagesWereShown` | src/crystal_seed.rs:78-142 | in every interleaving, when signed bytes leave they are the signature of one review loaded earlier, and since that load work RAM has held the report of every one of its pages, hence the whole amount and address of every output, and the whole fee |
| `CrystalSigner.PollsHappen` | src/crystal_seed.rs:78-142 | every sequence of polls beginning with LOCK, with any cards, is what core 1 performs in some run, so nothing the terminal can do is lost behind the link |

## Left out

- DMA, PIO, HyperRAM, SPI, USB, LED and linker code: register programming without checkable meaning here.
- The internals of bitcoin, bip39, secp256k1, qrcodegen and the FAT library are functions about which only `Psbt.Lawful`, `Psbt.AddressesFit` (a P2WPKH address has at most 44 characters) and `Terminal.Sound` are known.
- `SaveProtocol`, `SaveRuns` and `Mbc3` take the 32-bit save generation not to wrap within one run.
- `SeedLink.QueuedIsActiveAndTakenOnce` and `CrystalProtocol` take fewer than 2^32 submissions to happen while the worker holds one request.
- `CrystalProtocol` lets the bus hold up to 64 pending writes, more than the hardware FIFO; a FIFO that overflows and drops writes is not modelled, nor is other mapper traffic on the same bus.
- The page window starts as 38 zero bytes; what the ROM image, or the last page of an earlier session, holds there before the first publication of this one is not part of the model. `CrystalSigner` starts from a cartridge just switched on.
- CrystalProtocol.ReentryIff: bus writes of the earlier session that core 0 has not handled at re-entry are not modelled.
- SaveFile.Store.WriteSave: a cut leaves a prefix of the open file, of any length; damage to other sectors or to the directory and the wear of the card are not modelled.
- SaveFile.Store.RestoreBestInPlace: the clock tail handed to the save is a parameter of `SaveProtocol`, taken when the flush starts.
- Directory.List: the library's sort is taken to be stable, as it promises; reading the directory fails only behind the entries it has delivered.
- Qr.Refetch: the pages are fetched from a frame that stands still; `CrystalProtocol.FetchSeesItsAnswer` shows that it does in every interleaving.
- Reading a file in chunks and choosing the name of the signed file (`src/sd_psbt.rs` from line 131 on): bounded loops around the FAT library.
- Report.MakeReport: texts are taken to be ASCII, as the code's messages, addresses and file names are; other characters would be cut inside a UTF-8 sequence.
- Secrecy: zeroing of buffers is modelled as far as it changes state; copies made by compilers or libraries are not.
- Mbc1 and Mbc5, the bootloader, the game list, the clock-setting screen, drawing and keyboard code other than transport and QR painting: smaller machines with easier claims.
- The diagnostic `run`, `review`, `validate` and `sign` of `signer-probe/src/lib.rs`: they mirror the policy modelled in `Psbt`.
