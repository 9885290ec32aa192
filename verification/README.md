# gotochanger: a verified model of its core

gotochanger simulates a tape autochanger: magazines and mailboxes of slots, drives, one robotic arm, and
tapes backed by files. This project models the parts of it that keep state and proves what they are for.

**The library** (`LibraryState`, `Protocol`, `Interleaving` and their neighbours). The library is guarded by
two locks: `opMu`, held by an arm operation throughout, and `mu`, released around every simulated delay. The
model is a machine of any number of threads. Each thread is at a program counter with the values it captured,
each stretch between two releases of `mu` is one atomic step, and both locks are state. Offsite, creation, deletion, fault
and settings calls get in at every delay; a cleaning load releases both locks, so everything including
Reconfigure gets in there. A delay of zero, where the code does not release `mu`, is the interleaving in which
nobody gets in. Over all runs: placement refines an atomic specification, nothing is lost or doubled,
barcodes stay distinct, failed calls change nothing and fail for a reason (a call that set out fails only
when an offsite call got to its element first), the locks are ordered and never deadlock, the arm's marks
and the door counter are right, cleaning tapes expire once and on time, scoped calls stay in their logical
library, and an Origin names the slot its tape came from.

**The topology** (`Topology`, `Rebuilding`, `ResizeGuards`, `Restart`). Addresses are recomputed on every
rebuild; contents and Origins follow (unit, offset) identities. Rebuilds compose exactly when the topology in
between knew everything the last one keeps; the resize and delete guards accept exactly what loses nothing;
a restart is invisible.

**The tape** (`TapeState`, `TapeRoundTrip`, `EncryptedTape`, `Nonces`, `TapeDrive`, `Filemarks`). A byte stream, a filemark
list, a chunk-tag list and a head, under the SCSI-2 commands (ANSI X3.131-1994, sections 10.2.4, 10.2.12, 10.2.14,
10.2.15). Recorded files read back; the encrypted drive mirrors the plaintext one.

**The changer** (`ElementStatus`, `ElementPages`, `Exchange`). One 16-bit address space, READ ELEMENT STATUS
pages that read back, paging that is complete, and EXCHANGE MEDIUM built from the library's own operations
(SCSI-2, sections 17.2.1, 17.2.2 and 17.2.5).

**Every answer** (`Refusals`, `Answers`, `TapeAnswers`). Which error a call or command gives and when, and all it
changes when it gives none, spelled out in elements, bytes, marks and characters.

**Barcodes** (`Barcode`). Generation is injective and valid; the supply is the lowest unused numbers.

The objects of the program are classes here too (`LibraryObject.Library`, `Exchange.Changer`,
`TapeDrive.Drive`): their methods update fields, loop over lists and fill maps as the code does, and each is
proved to compute the function the laws are about and to keep the object valid. `ObjectRuns` ties the library object's methods to runs of
the protocol.

Check everything with `dafny verify dfyconfig.toml`.

## How the model reads the code

- A cartridge is a number; its attributes live in one list, as the pointers to volume objects do. The file
  behind a cartridge, symlinks and activity watchers are not modelled.
- A library's elements are addressed as the builder numbers them: slots and I/O slots in one run from 1, drives
  from 0. The object's methods require that of their lists and keep it.
- Setting an element that does not exist is defined to change nothing; under opMu it does not happen.
- A PIN check is a yes or no given to the open call. Tape sets and drive types are maps from names to formats
  and families, holding the ones that resolve.
- The two maps of open doors are one set of doors; the busy marks are a set of elements.
- A logical library is its drive indices and slot addresses; lists keep no order here.
- The cipher is any length-preserving seal and open in which open undoes seal under the same key and position.
- On the tape, filemark and chunk-tag lists are ascending, as the code keeps them; a corrupted sidecar file is
  not modelled, and data buffers are as long as the transfer.
- Kept as the code has them: WRITE of length 0 truncates; LOCATE past the end of data is accepted; two filemarks
  at one position are stored as one; a filemark at BOT survives a recording from BOT; WRITE FILEMARKS leaves
  chunk tags beyond the new end of data.
- The comment on the encryption nonce argues that one nonce never authenticates two chunks that still exist; that
  is `Nonces.NoncesDistinct`. Over time a rewritten tape does reuse nonces (`Nonces.RewritingReusesNonce`), and
  `Nonces.NoncesFreshExactlyBeyond` says exactly when.
- The comment on logical libraries says an element belongs to at most one; the conflict check skips libraries
  without a name and units without an id. `Isolation.AddKeepsPartition` gives the exact condition.

## Model

| member | source | states |
|---|---|---|
| Interleaving.RunRefines | internal/library/library.go:1848-1947 | In every interleaving of any calls, stepping between any two lock releases, the history of cartridge events is legal step by step for the atomic placement specification (a transfer takes a tape from where it is to a free place, rebuilds route elements injectively, only outside tapes are deleted) and replaying it gives exactly where every tape is. |
| Interleaving.RunKeepsUnique | internal/library/library.go:1710-1737 | In every reachable state each cartridge is in at most one of slots, I/O slots, drives, outside and offsite, at most once, and barcodes are pairwise distinct. |
| Interleaving.RunConserves | internal/library/library.go:2459-2525 | Over every run a cartridge disappears only by DeleteOutsideVolume or by a rebuild that drops its element, and appears only by creation. |
| Interleaving.LostOnlyThen | internal/library/library.go:2513-2525 | If a cartridge is gone after a sequence of events, one of them was its deletion or a rebuild without a route for the element it was in. |
| Interleaving.NewOnlyByCreation | internal/library/library.go:2437-2454 | A cartridge that was not there before is there only if its creation is among the events. |
| Interleaving.StepKeepsConsistent | internal/library/library.go:72-104 | Every step of any thread keeps the whole invariant: lock ownership, the refinement of placement, Origins that are slots, and what each thread in mid-operation relies on. |
| Interleaving.ReadyIsStable | internal/library/library.go:83-94 | What a thread holding opMu captured before a delay (its drive empty or still holding the tape, its slots still existing, the tape not expired, the door in its state) survives everything other callers can do with mu alone. |
| Interleaving.MuOnlyIsBystander | internal/library/library.go:2657-2712 | Offsite send and recall, creation, deletion, faults and settings change no drive content or Origin, no topology, no door, no arm state, no logical library and no existing tape. |
| Interleaving.StretchReady | internal/library/library.go:2768-2896 | Each stretch that goes to sleep leaves what its next stretch relies on; only a cleaning load ever gives opMu up in the middle. |
| Stretches.StretchSound | internal/library/library.go:1865-3230 | Each locked stretch of every call, given what its thread relies on, is a legal piece of the placement specification: its events are legal and lead to the new contents, with barcodes still distinct. |
| Stretches.MoveSound | internal/library/library.go:1929-1947 | With the two re-checks after the delays, the commit of Move is one transfer of the tape still in the source to a destination still free, or nothing. |
| Stretches.LoadSound | internal/library/library.go:2876-2896 | With only the source re-checked, the commit of Load is one transfer into the drive, because the drive stayed empty, or nothing. |
| Stretches.UnloadSound | internal/library/library.go:3192-3230 | The commit of Unload is one transfer out of the drive, to the destination if it is still free and to the outside list otherwise. |
| Stretches.EjectSound | internal/library/library.go:3092-3120 | The eject after a cleaning is one transfer to the live Origin if it exists and is empty, otherwise to the outside list. |
| Stretches.ReconfigureSound | internal/library/library.go:552-640 | A rebuild moves every cartridge along the route of identities, forgets those without one, and keeps one place per cartridge. |
| Stretches.CreateSound | internal/library/library.go:2437-2482 | New cartridges with barcodes free everywhere appear on the outside list, one creation each, and keep all barcodes distinct. |
| Stretches.CreateCleaningTapeSound | internal/library/library.go:2590-2628 | A new cleaning tape takes a barcode nobody has anywhere, offsite included. |
| Stretches.DeleteSound | internal/library/library.go:2513-2525 | Deleting removes exactly the outside cartridge of that barcode. |
| Stretches.OffsiteSendSound | internal/library/library.go:2657-2680 | Offsite send is one transfer from the element to the vault, or nothing. |
| Stretches.OffsiteRecallSound | internal/library/library.go:2685-2712 | Offsite recall is one transfer from the vault to a free element, or nothing. |
| Transfers.ShiftTransfers | internal/library/library.go:1940-1941 | Clearing one element and filling another is one legal transfer when the destination is free. |
| Transfers.RebuildFollowsRoute | internal/library/library.go:559-612 | The rebuilt elements hold exactly what the route of identities brings them. |
| Transfers.TransfersConserve | internal/library/library.go:1865-1947 | Legal transfers alone never change which cartridges there are. |
| Placement.ShiftMoves | internal/library/library.go:1940-1941 | Moving a cartridge to a free place changes its place, no other, and keeps every cartridge in one place. |
| Outcomes.CallsDoWhatTheyReturn | internal/library/library.go:1865-3230 | In every interleaving a returned call has made exactly its declared transfer: Move, Load and Unload from and to the elements asked for (a robot-mode cleaning load also its eject), offsite recall, manual creation, deletion and staged loads of the cartridge with the barcode asked for, creations of the tape set asked for; a failed call none at all except the fallback of Unload to the outside list with ErrFull; and every event of the run belongs to one of the calls. |
| Outcomes.DoorsAreAsReturned | internal/library/library.go:1956-2114 | In every interleaving, when an open returns without error its PIN was accepted and its door is open on an existing unit, and when a close does its door is shut, whoever else got mu in between. |
| Outcomes.StretchLogged | internal/library/library.go:2811-3016 | Stretch by stretch, what a call has done so far fits where it is. |
| Outcomes.ArmIdleWhenFree | internal/library/library.go:1479-1515 | In every reachable state the open-door counter is the number of open magazines and mailboxes, and whenever opMu is free the arm is idle and no element is marked busy. |
| Outcomes.StretchArm | internal/library/library.go:2914-2923 | Each stretch leaves the arm and the busy marks exactly as its next stage needs them, and cleared when it returns or gives opMu up. |
| Protocol.LockOrder | internal/library/library.go:95-104 | In every run no thread asks for opMu while it holds mu, each lock has one owner, and an arm operation holds mu only with opMu. |
| Protocol.StepKeepsLocked | internal/library/library.go:95-104 | The owners of opMu and mu are exactly the threads whose position says so, after every step. |
| Protocol.NoDeadlock | internal/library/library.go:95-104 | While any call is unfinished some thread can move. |
| Protocol.StepUsesUpWork | internal/library/library.go:1848-1855 | Every step of a thread uses up work, so no run goes on for ever without new calls. |
| Protocol.EverythingFinishes | internal/library/library.go:2923-2968 | Every state of a run can be driven by its own threads to one where all calls have returned. |
| Origins.OriginsNameTheirSlots | internal/library/library.go:2885-2887 | In every run, whatever rebuilds it contains, an Origin that is set leads to an existing slot whose identity is the one its drive's present tape was loaded from. |
| Origins.StretchNames | internal/library/library.go:3001-3008 | Every stretch keeps that: loads record it, unloads and ejects clear it, rebuilds shift it, nothing else touches it. |
| CleaningLife.ExpiredIsAbsorbing | internal/library/library.go:2983-2986 | In every interleaving, whatever the settings do, an expired tape stays expired; use and load counts never go down and a tape never changes barcode or kind. |
| CleaningLife.InUseSitsInDrive | internal/library/library.go:2895-2896 | In every interleaving a tracked tape that is in use for cleaning sits in a drive and is a cleaning tape. |
| CleaningLife.RobotModeMeters | internal/library/library.go:2961-2986 | With cleaning settings fixed and a positive maximum, in robot mode or with cleaning off, no interleaving lets the use count exceed the maximum, and a tape is expired exactly when it has reached it, even when it is unloaded and loaded again during an earlier load's wait, and even when the run starts with expired tapes in drives. |
| CleaningLife.MeteredExactly | internal/library/library.go:2970-2986 | In any mode, with settings fixed, the tapes of a run are within their maximum, and expired exactly at it, if and only if no wake-up in the run found its own tape still in the drive and already expired. |
| CleaningLife.WashFresh | internal/library/library.go:2976-2986 | The tape found in the drive after the wait has not expired meanwhile, so counting its use does not overshoot; if it expires now it is the one being ejected. |
| CleaningLife.WashMeters | internal/library/library.go:2981-2986 | A wake-up keeps a tape within its maximum exactly when the tape has not expired by then. |
| CleaningLife.WashCountsOnce | internal/library/library.go:2970-3008 | After the wait a load that still finds its tape in the drive counts exactly one use of that tape alone, resets the mounts and in robot mode goes on to eject towards the live Origin; otherwise it changes nothing. |
| CleaningLife.EjectReturnsHome | internal/library/library.go:3092-3120 | The eject empties the drive and puts the tape back into its Origin if that exists and is empty, otherwise outside, and makes it available unless it has expired. |
| SoftwareMode.SoftwareModeOvershoots | internal/library/library.go:2961-3012 | In software mode the bound is false: from any quiet library with a loadable cleaning tape one use short of its maximum there is a schedule (load, unload, load again while the first load still waits, then both wake) after which the tape has been counted once more than the maximum. |
| Isolation.AddKeepsPartition | internal/library/library.go:922-940 | On a list of disjoint, distinctly named logical libraries an accepted Add keeps it so exactly when the conflict check, asked of the library without a name that it skips, would find nothing among existing drives, and no unit with an empty id is shared. |
| Isolation.UpdateKeepsPartition | internal/library/library.go:945-969 | An accepted Update keeps the libraries disjoint exactly when no unit with an empty id is shared with another library. |
| Isolation.DeleteKeepsPartition | internal/library/library.go:972-986 | Delete keeps the libraries disjoint, and nothing belongs to the deleted name any more. |
| Isolation.UnnamedLibraryIsOverlooked | internal/library/library.go:893-915 | Concrete input: a library without a name owns a drive and a second library is let in with the same drive. |
| Isolation.ScopedCallsStayInside | internal/library/library.go:1875-1879 | In any interleaved run on fixed, disjoint libraries with every Move, Load and Unload scoped, an element of a library is changed by such a call only if the call is scoped to that library, the automatic eject included. |
| Isolation.StretchInside | internal/library/library.go:3033-3120 | Whatever a stretch of a scoped call transfers, both ends that are elements belong to its library. |
| Refusals.ArmSetsOut | internal/library/library.go:1875-1905 | Move, Load and Unload set out exactly when admitted (no scope given, or both elements among the own slots, I/O slots or drives of the first logical library of that name), the arm is well, the tape is there and its way is free; a load also needs a healthy drive, a tape that is not an expired cleaning tape, and no clash of known families other than generic (cleaning tapes exempt). |
| Refusals.RefusalsAreTrue | internal/library/library.go:2778-2836 | Every refusal of an arm call names a true cause, and a refused call has changed nothing. |
| Refusals.ScopeIs | internal/library/library.go:1041-1069 | The scope check admits a call exactly when no scope is given or both elements belong to the first logical library of that name. |
| Refusals.MoveAnswers | internal/library/library.go:1875-1905 | Which of its causes Move reports when several apply: the first in the order of the checks; and with which tape it sets out. |
| Refusals.LoadAnswers | internal/library/library.go:2778-2836 | The same for Load, with what it knows of its tape as it sets out. |
| Refusals.UnloadAnswers | internal/library/library.go:3136-3180 | The same for Unload. |
| Answers.WholeOpen | internal/library/library.go:1956-2035 | A whole open with any other calls while the door moves: not found without a slot of that unit, refused for a wrong PIN, otherwise the door is open on an existing unit and nothing else is touched; an open door stays open. |
| Answers.WholeClose | internal/library/library.go:1983-2114 | A whole close, of a magazine or a mailbox, with any other calls in its delays: refused for a shut door; otherwise it returns Ok with the door shut exactly when every action, after those before it, can be done once the door has moved, and else refuses with nothing changed. |
| Answers.ActionIsPerformable | internal/library/library.go:2214-2253 | A staged load can be done exactly with a barcode, a tape of it outside and an empty slot of the unit at that address; a pickup exactly with a full slot of the unit there and no tape of its barcode outside. |
| Answers.CreateAnswers | internal/library/library.go:2488-2510 | A manual creation, answer by answer: unknown set, a barcode that is unsafe or not of the format (spelled out in characters), one in use anywhere, or one new unused tape outside and nothing else changed. |
| Answers.BulkAnswers | internal/library/library.go:2459-2482 | A bulk creation fails exactly when fewer than count numbers are unused; otherwise count new unused data tapes appear outside, in order, bearing the barcodes of the lowest unused numbers. |
| Answers.CleaningTapeAnswers | internal/library/library.go:2590-2628 | A cleaning tape is refused with five in elements and outside, or without an unused number of five digits; otherwise one available cleaning tape of the lowest unused number appears outside. |
| Answers.AddAnswers | internal/library/library.go:883-940 | An Add is refused exactly when the name is taken or a named library has a drive, or an element of a unit with an id, that is asked for; otherwise the new library comes last and owns exactly the configured elements. |
| Answers.UpdateAnswers | internal/library/library.go:945-969 | An Update replaces the first library of the name by one that owns exactly the configured elements under the same name, unless the name is unknown or another named library has an element asked for. |
| Answers.DeleteLibraryAnswers | internal/library/library.go:972-986 | A Delete takes the first library of the name out and leaves the others in order. |
| Answers.ReconfigureAnswers | internal/library/library.go:552-640 | A Reconfigure resolves every configured library anew on the new elements, keeps a door open exactly when it was and its unit still has slots, takes the new settings, and leaves tapes, lists and the fault of the arm alone. |
| Answers.LoadTouches | internal/library/library.go:2885-2900 | Besides placement a load sets the Origin to its source, counts a mount of the drive unless it cleans, counts a load of the tape and marks a cleaning tape in use, and touches nothing else. |
| Answers.UnloadTouches | internal/library/library.go:3192-3214 | Besides placement an unload clears the Origin, resets the mounts after a cleaning tape and frees a cleaning tape unless expired, and touches nothing else. |
| Refusals.OffsiteSucceeds | internal/library/library.go:2657-2712 | Offsite calls succeed exactly when vaulting is enabled, the tape is there and, on recall, the element exists and is empty. |
| Refusals.DeleteSucceeds | internal/library/library.go:2513-2525 | Deletion succeeds exactly for a barcode on the outside list. |
| Refusals.CreateSucceeds | internal/library/library.go:2488-2510 | A manual creation succeeds exactly for a known tape set and a well-formed barcode no cartridge anywhere has. |
| Refusals.BulkSucceeds | internal/library/library.go:2459-2482 | A bulk creation succeeds exactly when enough numbers of the format are unused. |
| Refusals.SupplyIsWellFormed | internal/barcode/barcode.go:82-102 | Every barcode generated under a valid format passes both the format check and the character check of a manual creation. |
| Interference.FailsOnlyByInterference | internal/library/library.go:1929-1938 | In every interleaving a Move, Load or Unload that set out succeeds unless another thread's offsite call got there since: it comes back empty only if an offsite send has taken that very tape out of its source, and full (for Unload, the fallback) only if an offsite recall has filled its destination. |
| Interference.InterferenceIsSeen | internal/library/library.go:2872-2884 | And the other way: at its commit the call does fail with that error when such an offsite call has happened since it set out and has not been undone by another one there, and succeeds when none has. |
| Interference.LastOffsiteDecides | internal/library/library.go:1929-1941 | Exactly how a Move, Load or Unload that set out ends: each of its elements holds what the last offsite call there since has left, or else what it held at the start, and the re-checks decide by that. |
| Interference.StepKeepsTracked | internal/library/library.go:3192-3215 | Every step of any thread keeps what is known of a call on its way: its source still holds its tape or an offsite send has taken it, its destination is still empty or an offsite recall has filled it. |
| Interference.BystanderTouches | internal/library/library.go:2657-2712 | Of all calls that take mu alone only an offsite send of an element takes its tape out, and only a recall to an empty element puts one in. |
| Batches.CloseIsTransaction | internal/library/library.go:2199-2279 | A door close is a transaction: refused, nothing at all changes and the door stays open; accepted, one transfer per action in order, each staged load of the cartridge with its barcode, only behind its own door, no cartridge lost, the vault untouched, the outside list sorted by barcode; a mailbox is then shut, a magazine goes on to be scanned. |
| Batches.RefusedIs | internal/library/library.go:2282-2342 | A batch is refused exactly when some action is bad once all actions before it have been applied. |
| Batches.BatchTransfers | internal/library/library.go:2209-2262 | The events of an accepted batch match its actions one for one and lead to the new contents. |
| Batches.BatchStaysBehindDoor | internal/library/library.go:2222-2245 | Elements not behind the door, drives and the vault keep their contents. |
| Batches.SortIs | internal/library/library.go:2256-2260 | Sorting keeps exactly the same cartridges and puts them in barcode order. |
| Batches.StringLessIs | internal/library/library.go:2256-2260 | Barcode order is character order: at the first difference the smaller character, or the end, comes first. |
| DoorStaging.RunBatch | internal/library/library.go:2199-2265 | The batch as it runs, on a map of slot contents and a map of the outside list by barcode in random order, has the same verdict and the same outcome as applying the actions one by one and sorting. |
| DoorStaging.StageAction | internal/library/library.go:2214-2253 | One action on the maps is accepted exactly when it is on the store, and the maps follow the store. |
| DoorStaging.SortedIsUnique | internal/library/library.go:2256-2260 | With distinct barcodes there is only one sorted list, so the order the map gives does not show. |
| DoorStaging.OutsideFrom | internal/library/library.go:2256-2260 | The outside list rebuilt from the map in any order is the sorted list. |
| Topology.KeysDistinct | internal/library/library.go:481-499 | No two slots of a list have the same (unit, offset) identity. |
| Topology.OffsetsFill | internal/library/library.go:481-499 | A unit's identities are exactly its offsets from 1 to its number of slots. |
| Topology.ResolveIs | internal/library/library.go:463-499 | An element's identity leads back to it and to no other element. |
| Topology.BuildLaysOut | internal/library/library.go:239-290 | The builder makes the slots of each magazine and then of each mailbox, unit after unit and each of its size, numbered in one run from 1, and the drives numbered from 0, all empty. |
| Placement.GetByNumber | internal/library/library.go:1674-1699 | An element exists, and holds a cartridge, exactly when one with that address or index does. |
| Rebuilding.RebuildGet | internal/library/library.go:574-605 | After a rebuild every element holds what its identity held before, or nothing. |
| Rebuilding.RebuildNeverDuplicates | internal/library/library.go:574-605 | A rebuild never puts a cartridge in two places. |
| Rebuilding.RebuildOrigin | internal/library/library.go:511-539 | A carried drive's Origin becomes the new address of the identity it named, or nothing if that is gone; a drive that is not carried has none. |
| Rebuilding.RebuildsCompose | internal/library/library.go:552-612 | Reconfigure(c1) then Reconfigure(c2) gives the same placement and Origins as Reconfigure(c2) alone exactly when c1 has every occupied identity, and every carried drive and its Origin identity, that c2 keeps. |
| Rebuilding.RebuildSame | internal/library/library.go:552-612 | Reconfiguring with an unchanged topology changes nothing. |
| Rebuilding.RestoreIsRebuild | internal/library/library.go:711-729 | Restoring is rebuilding, except that a drive is matched by its index alone. |
| RebuildLoops.RebuildStore | internal/library/library.go:552-612 | The rebuild as it runs, counting offsets in one pass and keeping contents and addresses in maps, computes the rebuild by identity. |
| RebuildLoops.Index | internal/library/library.go:559-573 | The maps of keys by address and of cartridges by key are exact. |
| RebuildLoops.MakeSlots | internal/library/library.go:264-290 | The running address counter numbers the slots unit after unit without gaps. |
| RebuildLoops.MoveOrigin | internal/library/library.go:511-539 | Going from old address to key to new address through the maps shifts an Origin by identity. |
| ResizeGuards.ShrinkIsLossless | internal/api/handlers_topology.go:512-526 | A resize keeps every slot content and every Origin resolvable exactly when no slot of the tail beyond the new size is occupied or the Origin of a drive. |
| ResizeGuards.DeleteIsLossless | internal/api/handlers_topology.go:548-575 | A delete keeps everything exactly when no slot of the unit is occupied or an Origin. |
| ResizeGuards.MemberAt | internal/api/handlers_topology.go:582-603 | A slot's place in its unit's list is its offset, so cutting the list at n is removing the offsets above n. |
| ResizeGuards.ShrinkDropsTail | internal/api/handlers_topology.go:512-526 | The identities a shrink drops are exactly those of the unit with offsets above the new size. |
| ResizeGuards.SlotsIn | internal/api/handlers_topology.go:582-603 | The filter yields the unit's slots in offset order. |
| ResizeGuards.OriginIn | internal/api/handlers_topology.go:605-632 | The scan finds a drive whose Origin is one of the given slots exactly when there is one. |
| ResizeGuards.GuardUpdate | internal/api/handlers_topology.go:500-541 | The resize guard of magazines and mailboxes accepts exactly the sizes whose rebuild loses nothing. |
| ResizeGuards.GuardDelete | internal/api/handlers_topology.go:548-575 | The delete guard accepts exactly when the door is closed and the rebuild loses nothing. |
| Restart.RestartIsInvisible | internal/library/library.go:669-754 | Restoring the saved snapshot onto elements built from the same configuration gives back placement, Origins, drive and robotic faults, mount counters, open doors, outside and offsite lists, settings and logical libraries; the arm starts idle with the right door count. |
| LibraryObject.Library.constructor | internal/library/library.go:191-300 | A new library has the elements of its configuration, numbered by the builder and all empty, and is valid: Origins are slots, every cartridge is in one place with a barcode of its own. Every method below keeps that. |
| LibraryObject.HoldKeeps | internal/library/library.go:95-104 | One whole hold of opMu, with any other calls in its gaps, keeps every cartridge in one place, barcodes distinct and Origins slots. |
| LibraryObject.Library.Move | internal/library/library.go:1865-1947 | The method, with any other calls in its delays, brings the library where its stretches with those calls between them bring it, and returns their result. |
| LibraryObject.Library.Load | internal/library/library.go:2768-2923 | The same for Load up to its end or to the start of the cleaning wait. |
| LibraryObject.Library.FinishCleaning | internal/library/library.go:2970-3016 | The same for the part of Load after the wait, eject included, on whatever valid library it finds. |
| LibraryObject.Library.Unload | internal/library/library.go:3126-3230 | The same for Unload. |
| LibraryObject.Library.OpenDoor | internal/library/library.go:1956-1978 | The same for opening a mailbox or a magazine. |
| LibraryObject.Library.CloseDoor | internal/library/library.go:2038-2114 | The same for closing one, with the staged actions on maps and the slot-by-slot scan of a magazine. |
| LibraryObject.Library.CommitMove | internal/library/library.go:1929-1947 | The re-checks and the two assignments compute the commit of Move. |
| LibraryObject.Library.CommitLoad | internal/library/library.go:2872-2900 | The re-check, the drive's new content, Origin and counters compute the commit of Load. |
| LibraryObject.Library.CommitUnload | internal/library/library.go:3192-3230 | Emptying the drive and the fallback compute the commit of Unload. |
| LibraryObject.Library.Eject | internal/library/library.go:3092-3120 | Emptying the drive and the return to the Origin or outside compute the eject. |
| LibraryObject.Library.SleepUnlocked | internal/library/library.go:1848-1855 | Releasing mu lets exactly the other callers' calls happen. |
| LibraryObject.Library.OffsiteSend | internal/library/library.go:2657-2680 | The whole new state of an offsite send, and its errors. |
| LibraryObject.Library.OffsiteRecall | internal/library/library.go:2685-2712 | The whole new state of an offsite recall, and its errors. |
| LibraryObject.Library.CreateCartridge | internal/library/library.go:2488-2510 | The whole new state of a manual creation: format, charset and system-wide uniqueness checked. |
| LibraryObject.Library.CreateCartridges | internal/library/library.go:2459-2482 | The whole new state of a bulk creation from the next free barcodes. |
| LibraryObject.Library.CreateCleaningTape | internal/library/library.go:2590-2628 | The whole new state of a cleaning tape creation, with the pool limit of five over elements and outside. |
| LibraryObject.Library.DeleteOutside | internal/library/library.go:2513-2525 | The whole new state of a deletion. |
| LibraryObject.Library.TakenBarcodes | internal/library/library.go:1710-1737 | The scan over slots, I/O slots, drives, outside and offsite finds every barcode in use. |
| LibraryObject.Library.FindSlot | internal/library/library.go:1674-1681 | The scan by address finds the slot exactly when it exists. |
| LibraryObject.Library.FindIn | internal/library/library.go:1701-1708 | The scan by barcode finds the first match; cutting it out removes that cartridge only. |
| LibraryObject.Library.InLogicalLibrary | internal/library/library.go:1041-1069 | The scan decides membership by the first library of that name. |
| LibraryObject.Library.HasConflict | internal/library/library.go:883-917 | The scans decide whether another library already has a drive, magazine or mailbox of the configuration. |
| LibraryObject.Library.AddLibrary | internal/library/library.go:922-940 | The whole new list of logical libraries after an Add, or its error. |
| LibraryObject.Library.UpdateLibrary | internal/library/library.go:945-969 | The whole new list after an Update, or its error. |
| LibraryObject.Library.DeleteLibrary | internal/library/library.go:972-986 | The whole new list after a Delete, or its error. |
| LibraryObject.Library.Reconfigure | internal/library/library.go:552-640 | The whole new state of a Reconfigure: rebuilt elements, doors of vanished units dropped, doors recounted, settings and libraries resolved anew. |
| LibraryObject.Library.PruneDoors | internal/library/library.go:620-640 | Only doors whose unit still exists stay open, and the counter is their number. |
| ObjectRuns.HoldRuns | internal/library/library.go:1848-1855 | What the object's methods compute is what a run of the interleaving protocol computes, so every result about runs holds of them. |
| ElementStatus.AddressesDistinct | internal/scsi/changer.go:481-516 | The 16-bit element addresses are pairwise distinct exactly when the elements fit the address space. |
| ElementStatus.BuildElements | internal/scsi/changer.go:481-516 | The three loops number storage, import/export and data transfer elements together from 2, each group in address order. |
| ElementStatus.ElementsAre | internal/scsi/changer.go:481-516 | Every slot, I/O slot and drive is one element, each group in order, numbered together from 2, saying its own kind, place, fullness, barcode and, for a drive, fault. |
| Sorting.SortByIs | internal/scsi/changer.go:482-487 | Sorting by any order keeps exactly the same elements and puts them in order; element lists by address and the outside list by barcode are sorted so. |
| ElementStatus.SelectElements | internal/scsi/changer.go:566-581 | The loop computes the selection that SelectionIs describes. |
| ElementStatus.SelectionIs | internal/scsi/changer.go:566-581 | Selected are, in list order, the first n elements at or above the start that are storage for type 2, import/export for type 3, data transfer for type 4, any for type 0, and no others. |
| ElementStatus.PagingIsComplete | internal/scsi/changer.go:566-581 | Asking again from just above the last address seen, with any positive page sizes, yields each wanted element exactly once, in order. |
| ElementStatus.LibraryIsPaged | internal/scsi/changer.go:667-692 | A library whose elements fit the address space is read out completely by paging, and no next start address wraps. |
| ElementStatus.EachTypeIsPaged | internal/scsi/changer.go:566-581 | Paging by type 2, 3 or 4 reads out exactly the storage, import/export or data transfer elements of a fitting library, each once and in order. |
| ElementPages.BuildDescriptor | internal/scsi/changer.go:534-559 | Filling the bytes in place gives the 20-byte or 56-byte descriptor. |
| ElementPages.ReadsTag | internal/scsi/changer.go:553-557 | A volume tag reads back as the barcode, or its first 32 characters. |
| ElementPages.ReadsDescriptor | internal/scsi/changer.go:534-559 | A descriptor reads back as its element's kind, address, full and exception flags and barcode. |
| ElementPages.FlagBits | internal/scsi/changer.go:534-550 | The flag byte bit by bit: full, exception, always accessible, import and export enabled on import/export elements only. |
| ElementPages.DescriptorIs | internal/scsi/changer.go:534-559 | A descriptor byte by byte: length, address, flags, the tag padded with spaces to 32 bytes, zeros elsewhere. |
| ElementPages.PageIsLaidOut | internal/scsi/changer.go:604-633 | A page byte by byte: type code, tag flag, descriptor length, byte count, then the descriptors one after the other. |
| ElementPages.BuildBody | internal/scsi/changer.go:604-633 | The nested loops print one page per run of elements of one kind. |
| ElementPages.BodyIsPagePerRun | internal/scsi/changer.go:604-633 | The body is exactly one page for each longest run of selected elements of one kind, in order. |
| ElementPages.ReadsBody | internal/scsi/changer.go:604-633 | Reading the printed pages by their own lengths returns every selected element in order. |
| ElementPages.ResponseReadsBack | internal/scsi/changer.go:640-692 | The header's first address, element count and byte count are the real ones, and the pages read back as the selection whenever the allocation length holds them. |
| ElementPages.ResponseIsCut | internal/scsi/changer.go:667-692 | A short allocation only cuts the response. |
| Exchange.LegIs | internal/scsi/changer.go:873-882 | One transfer of an ordinary tape with nobody else about succeeds exactly under its own preconditions, carries exactly that tape, and changes nothing when it fails. |
| Exchange.SwapIs | internal/scsi/changer.go:953-975 | The three-transfer swap answers GOOD exactly when the swap is possible, and then the two volumes are exchanged, the scratch slot is empty again and nothing else changed. |
| Exchange.ExchangeSwaps | internal/scsi/changer.go:921-975 | EXCHANGE MEDIUM on two full elements of ordinary tapes swaps them exactly when a storage slot is free and the swap is possible; without a free slot it answers destination full and changes nothing. |
| Exchange.ExchangeRefusals | internal/scsi/changer.go:921-993 | What EXCHANGE MEDIUM refuses before any transfer, each exactly: an address no element has, an empty source or first destination, a swap with every storage slot full, a full second destination; nothing has changed then. |
| Exchange.DriveSwapStrands | internal/scsi/changer.go:953-975 | Between two drives the swap always fails, and leaves the source's volume in the scratch slot. |
| ExchangeRuns.SwapAmongOthers | internal/scsi/changer.go:953-975 | Among any other calls: when the three transfers have returned Ok and nobody else has touched the two elements or the scratch slot since the command began, the two volumes are exchanged and the scratch slot is empty again, whatever happened elsewhere. |
| ExchangeRuns.TransferSucceeds | internal/scsi/changer.go:873-882 | One transfer of an ordinary tape among any other calls that leave its two elements alone returns Ok if and only if it was possible as it began. |
| ExchangeRuns.TransferAmongOthers | internal/scsi/changer.go:873-882 | One transfer among others that leave a set of elements alone: on those elements exactly its tape has been carried. |
| ExchangeRuns.HistoryCarries | internal/library/library.go:1940-1941 | A legal history that touches a set of elements by one transfer alone makes it at most once, and then has exactly its effect there. |
| Exchange.ExchangeShifts | internal/scsi/changer.go:977-993 | In the three-location form EXCHANGE MEDIUM answers GOOD exactly when the second volume can go to the third element and the first can follow, and then exactly that has happened and nothing else; a full third element is reported and changes nothing, and a second transfer that fails leaves the first one done. |
| Exchange.ShiftIs | internal/scsi/changer.go:977-993 | The two transfers in a row succeed exactly under that condition, with exactly that effect. |
| Exchange.LegsConserve | internal/scsi/changer.go:953-993 | A sequence of transfers, complete or cut short by a failing one, loses no cartridge. |
| Exchange.ElementsAreTruthful | internal/scsi/changer.go:481-516 | Every reported element exists and is reported full exactly when it is. |
| Exchange.Changer.MoveOne | internal/scsi/changer.go:873-882 | The dispatch to Load, Unload or Move on the library object computes one transfer and keeps every cartridge in one place. |
| Exchange.MoveMediumIs | internal/scsi/changer.go:792-827 | MOVE MEDIUM of an ordinary tape: an address of no element, an empty source and a full destination are each reported exactly when they are so; otherwise GOOD exactly when the transfer is possible, and then exactly that tape is carried; any other answer changes nothing. |
| Exchange.Changer.MoveMedium | internal/scsi/changer.go:792-827 | The command on the library object computes the outcome that Exchange.MoveMediumIs speaks about, and leaves the library valid. |
| Exchange.Changer.ExchangeMedium | internal/scsi/changer.go:921-993 | The command on the library object: lookups, checks, scratch slot and the sequence of transfers. |
| Barcode.GenerateInjective | internal/barcode/barcode.go:140-149 | At one format, different sequence numbers give different barcodes. |
| Barcode.GenerateIs | internal/barcode/barcode.go:140-149 | A barcode is generated for a number exactly when it reads as that positive number: digits of the width whose decimal value it is, then the media id. |
| Barcode.GeneratesBelowCapacity | internal/barcode/barcode.go:140-149 | Exactly the numbers from 1 to 10^width - 1 have a barcode. |
| Barcode.GeneratedIsValid | internal/barcode/barcode.go:120-149 | A generated barcode passes the validation of its format exactly when the media id is upper-case alphanumeric, so always under a valid format. |
| Barcode.ValidIs | internal/barcode/barcode.go:120-138 | A barcode is valid exactly when it is an upper-case alphanumeric serial part of the length and the media id. |
| Barcode.ValidSpecIs | internal/barcode/barcode.go:82-102 | The valid formats by length of the media id and family. |
| Barcode.NextAvailableIs | internal/barcode/barcode.go:156-172 | The supply is the lowest-numbered unused barcodes, and fails exactly when fewer than count numbers of that width are unused. |
| Barcode.SupplyByNumber | internal/barcode/barcode.go:156-172 | Without the generator: the supplied barcodes read as ascending unused numbers, no unused number below the last is left out, and there is no supply exactly when fewer than count numbers are unused. |
| Barcode.FreeIsFresh | internal/barcode/barcode.go:156-172 | The supplied barcodes are distinct, unused, and exactly the unused ones up to the last number. |
| Barcode.FindAvailable | internal/barcode/barcode.go:156-172 | The loop always ends and computes that supply. |
| Filemarks.RecordFilemark | internal/scsi/filemarks.go:78-91 | Recording a mark keeps exactly the marks before it and adds it, in ascending order. |
| Filemarks.InvalidateFilemarksFrom | internal/scsi/filemarks.go:169-184 | Invalidation keeps exactly the marks at or before the position. |
| Filemarks.FilemarkForward | internal/scsi/filemarks.go:101-113 | The forward scan lands on the last of the marks it counted ahead. |
| Filemarks.FilemarkReverse | internal/scsi/filemarks.go:125-137 | The backward scan lands on the last of the marks it counted behind. |
| Filemarks.ForwardAdds | internal/scsi/filemarks.go:101-113 | Spacing forward a then b is spacing forward a + b, in place and count. |
| Filemarks.ReverseAdds | internal/scsi/filemarks.go:125-137 | Spacing backward composes in the same way. |
| Filemarks.ForwardThenReverse | internal/scsi/drive.go:757-790 | Forward k that succeeds, then back k, ends on the last mark at or before the start, or comes up exactly one mark short when there is none. |
| TapeState.SpaceForwardCounts | internal/scsi/drive.go:764-780 | SPACE forward stops on the mark with exactly count marks passed; with fewer ahead it lands at the end of data and reports exactly how many are missing. |
| TapeState.SpaceThereAndBack | internal/scsi/drive.go:757-790 | SPACE k filemarks forward that succeeds, then k back, lands on the last filemark at or before the start, or on BOT. |
| TapeAnswers.SpaceReverseCounts | internal/scsi/drive.go:781-797 | SPACE back stops on the mark with exactly count marks from it to the start, or at BOT with fewer. |
| TapeState.StepKeepsSorted | internal/scsi/drive.go:463-563 | Every command keeps filemarks and chunk tags strictly ascending, whatever the head position. |
| TapeState.StepKeepsBounded | internal/scsi/drive.go:816-842 | A command keeps filemarks and head within the data and the data within the capacity exactly when it is not a LOCATE past the end of data. |
| TapeState.RunKeepsBounded | internal/scsi/drive.go:463-633 | Over every command sequence with LOCATE targets within the data: ascending marks at or below end of data, head within the data, data within the capacity. |
| TapeState.RunKeepsCapacity | internal/scsi/drive.go:1387-1430 | Recorded data never exceeds a positive capacity over any command sequence, SET CAPACITY and LOCATE past the end included. |
| TapeState.MovingKeepsRecording | internal/scsi/drive.go:721-801 | Commands that only move the head change nothing recorded. |
| TapeAnswers.EraseAnswers | internal/scsi/drive.go:1251-1291 | ERASE, refused without a tape or on a protected one: short, exactly the bytes up to the head, the marks up to it and the chunks that start below it stay, and the head does; long, nothing stays and the head is at BOT. |
| TapeAnswers.ErasedIsGone | internal/scsi/drive.go:1251-1291 | After a short ERASE within the data a READ finds nothing, encrypted or not. |
| TapeAnswers.ReadToMark | internal/scsi/drive.go:382-456 | READ with a mark within reach delivers the bytes up to it and reports FILEMARK with the residual, or a short read if the data ends before it. |
| TapeAnswers.ReadWithoutMark | internal/scsi/drive.go:382-456 | READ with no mark within reach delivers the bytes asked for, reports a short read unless suppressed, and BLANK CHECK when there are none. |
| TapeAnswers.ReadAt | internal/scsi/drive.go:816-842 | LOCATE within the data and a READ short of marks and end deliver the bytes of that address. |
| TapeAnswers.ReadUnauthorized | internal/scsi/encryption.go:200-246 | A chunk at the head that does not open under the key fails the READ and leaves the head. |
| TapeAnswers.GapEndsData | internal/scsi/encryption.go:200-246 | Where no whole chunk covers the head an encrypted tape has no data. |
| TapeAnswers.VerifyAnswers | internal/scsi/drive.go:1311-1374 | VERIFY moves and answers as a READ of the same bytes, and transfers none. |
| TapeAnswers.WriteRefusals | internal/scsi/drive.go:463-506 | WRITE is refused, with nothing changed, exactly without a tape, on a protected one, past the session limit or else the capacity, or on an encrypted tape in mid-pass without a usable key, in this order. |
| TapeAnswers.WriteLaysDown | internal/scsi/drive.go:507-563 | An accepted WRITE leaves its bytes, sealed if the pass is encrypted, at the head and nothing beyond, exactly the marks up to the old head and the chunks that start below it with the new one, and the head behind the data. |
| TapeAnswers.DataOutIs | internal/scsi/drive.go:507-530 | The bytes written are the first n of the buffers one after the other. |
| TapeAnswers.WriteFilemarksAnswers | internal/scsi/drive.go:595-634 | WRITE FILEMARKS of a positive count ends the tape at the head and leaves exactly the marks before it and one there; of 0 it changes nothing. |
| TapeAnswers.SpaceLandsNearest | internal/scsi/drive.go:721-756 | SPACE over blocks lands within the data as near to its target as that allows, and reports BLANK CHECK exactly when the target lies beyond the end. |
| TapeAnswers.SpaceCountIs | internal/scsi/drive.go:721-735 | The count field is read as 24-bit two's complement. |
| TapeAnswers.SetCapacityAnswers | internal/scsi/drive.go:1387-1430 | SET CAPACITY limits the session to that many 65535ths of the capacity rounded down; 0 lifts the limit. |
| TapeRoundTrip.RoundTrip | internal/scsi/drive.go:382-563 | Record any non-empty files from BOT in any block sizes, one filemark after each; then for every k, REWIND, SPACE k filemarks and READs of any positive sizes deliver exactly file k and report FILEMARK exactly at its end. |
| TapeRoundTrip.ReadsStopAtMark | internal/scsi/drive.go:382-456 | From anywhere in a file, READs of any positive sizes deliver the bytes up to the next mark, never one beyond it, and report FILEMARK exactly when they reach it. |
| TapeRoundTrip.RecordFromBOT | internal/scsi/drive.go:595-634 | Recording from BOT over any old tape leaves exactly the files' text and their marks (a mark at BOT survives). |
| TapeRoundTrip.SealedRoundTrip | internal/scsi/drive.go:507-559 | The same round trip with a key in the session, on a tape recorded before under any other key or none. |
| EncryptedTape.DecryptReturnsPlaintext | internal/scsi/encryption.go:200-246 | When the chunk tags tile the recorded data, decrypting any range returns exactly that range of the plaintext, cut at the end of data. |
| EncryptedTape.WriteTiles | internal/scsi/encryption.go:145-157 | A sealed write at a chunk boundary or at the end of data keeps the tags tiling the data. |
| EncryptedTape.StepMirrors | internal/scsi/drive.go:507-559 | Every aligned command answers the same on the encrypted and the plaintext tape, and keeps them mirrors of each other. |
| EncryptedTape.RunMirrors | internal/scsi/drive.go:507-559 | Over a whole aligned run the encrypted drive gives the plaintext drive's responses, bytes and sense alike. |
| EncryptedTape.FirstWriteMirrors | internal/scsi/drive.go:507-530 | The first write at BOT starts a pass on any tape, whatever leftovers it has. |
| Nonces.NoncesDistinct | internal/scsi/encryption.go:126-130 | Whatever commands are run, LOCATE past the end included, no two chunks recorded on the tape share a nonce. |
| Nonces.NonceSpells | internal/scsi/encryption.go:126-130 | A nonce is four zero bytes and the offset, most significant byte first. |
| Nonces.NoncesFreshExactlyBeyond | internal/scsi/encryption.go:100-130 | Over time the promise is kept exactly so: in a pass under one key, from a blank medium or from what it has recorded so far, recording at chunk boundaries or at end of data, no nonce is used twice (nor one of a chunk on the tape) if and only if every WRITE that seals finds the head beyond the start of all chunks sealed before it; that is, if and only if the starts go up. |
| Nonces.WriteDecides | internal/scsi/drive.go:507-530 | At each sealing WRITE of such a pass the head is either below the frontier, and then exactly at an offset already used, or beyond it, and then the pass goes on with a new frontier. |
| Nonces.AppendingSealsAfresh | internal/scsi/drive.go:507-530 | Whatever keys it uses and wherever the tape came from, a run that records at end of data only and cuts nothing off never seals twice at one offset, gone chunks included. |
| Nonces.RewritingReusesNonce | internal/scsi/encryption.go:126-130 | The input that fails: on any tape at BOT with a key in use, writing, rewinding and writing again seals both under that key and the same nonce; Nonces.NoncesFreshExactlyBeyond says exactly which runs do. |
| TapeState.RunKeepsSorted | internal/scsi/drive.go:463-563 | Over every command sequence filemarks and chunk tags stay strictly ascending. |
| TapeDrive.Drive.Write6 | internal/scsi/drive.go:463-563 | The method computes the whole new tape and the response of WRITE(6). |
| TapeDrive.Drive.WriteFilemarks | internal/scsi/drive.go:595-634 | The same for WRITE FILEMARKS(6). |
| TapeDrive.Drive.Read6 | internal/scsi/drive.go:382-456 | The same for READ(6). |
| TapeDrive.Drive.Space6 | internal/scsi/drive.go:721-801 | The same for SPACE(6). |
| TapeDrive.Drive.Erase | internal/scsi/drive.go:1251-1291 | The same for ERASE. |
| TapeDrive.Drive.DecryptRange | internal/scsi/encryption.go:200-246 | The loop over the chunk tags computes the decryption of the range. |
| TapeDrive.Drive.Handle | internal/scsi/drive.go:105-167 | Every modelled command, dispatched, computes the whole new tape and the response. |
| TapeDrive.DropEncTagsFrom | internal/scsi/encryption.go:317-332 | Dropping keeps exactly the tags that start before the position. |
| TapeDrive.TruncateToEOD | internal/scsi/drive.go:666-675 | Truncation keeps a beginning of the data, as much of it as lies below the end given, and never lengthens it. |

## Left out

- HTTP, persistence format, authentication, SNMP, metrics, event texts, arm narration and the web interface: they decide nothing here.
- File errors (a symlink, directory or cartridge file that cannot be made): the calls' early exits for them are not modelled.
- Durations: a delay is only a point where locks are released.
- RotateOffsite and AutoCleanSweep: each is a sequence of the modelled calls, so they are runs of the protocol.
- Write protection, MAM attributes, partitions, FORMAT MEDIUM, mode, log and VPD pages: small settings next to the above.
- Several partitions together with encryption, overwrites in the middle of a chunk and key changes within a pass: the code declares them unsupported; the encrypted results ask for aligned commands.
- SEND VOLUME TAG's pattern search, OPEN/CLOSE IMPORT/EXPORT ELEMENT and the element address page: small next to READ ELEMENT STATUS.
- The 64-bit wrap of SET CAPACITY's product: numbers are unbounded there.
- CleaningLife.RobotModeMeters: says nothing of software mode with cleaning enabled; there the bound is false, as SoftwareMode.SoftwareModeOvershoots shows, and CleaningLife.MeteredExactly says exactly when it holds.
- Exchange.ExchangeSwaps: is stated with no other caller between the transfers; with others about, ExchangeRuns.TransferSucceeds says when each transfer succeeds and ExchangeRuns.SwapAmongOthers what three of them do.
- Nonces.AppendingSealsAfresh: is one way only, because it asks for no alignment and no single key; for the recording passes the code supports, Nonces.NoncesFreshExactlyBeyond goes both ways.
- Load is two methods on the object, Load and FinishCleaning, because anything may happen to the object during the cleaning wait.
- Reordering by sort.Slice of equal keys: keys are distinct wherever the order matters.
