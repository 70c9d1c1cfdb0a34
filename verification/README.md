# A Dafny model of PoseidonOS array management

PoseidonOS keeps storage arrays alive while devices fail, are replaced and are rebuilt. This project models
the parts of it that carry state over whole runs, and proves what that state keeps.

| files | what they model |
|---|---|
| `Raid`, `ArrayModel`, `ArrayInvariants`, `ArraySteps`, `ArrayRuns`, `ArrayRecords`, `ArrayRestart`, `ArrayEffects`, `ArrayExamples`, `ArrayObject` | one array: data and spare slots, block devices, array state, rebuild jobs, boot records |
| `MountProgress`, `MountSequence`, `MountObject` | the mount sequence, its rollback, its state contexts and its progress figures |
| `IoSplit` | splitting a volume I/O and its buffer |
| `FlushIo` | the completion counter of a flush |
| `ArrayManager`, `AllocatorService` | array indices, array names and the allocator registry |
| `SmartLog` | merging the SMART pages of all disks into one (section 5.14.1.2 of NVM Express Base Specification 1.4) |
| `NumaCreation` | choosing devices of one NUMA node and one size |
| `Options`, `Int32` | a value that may be missing, 32-bit wrap-around |

A state machine is written twice. Step functions over a `State` value are what the run theorems speak about. A
class (`Array`, `ArrayMountSequence`, `VolumeIo`, `FlushCounter`, `Manager`, `Registry`, `ResultPage`) updates
its fields the way the source does, and each of its methods ensures that the new fields are what the step
function gives. What the code asks of its surroundings (does the record serialise, did a state context arrive in
time, is automatic rebuild on, did Init succeed) is a parameter, so every theorem holds for every answer.

`dafny verify dfyconfig.toml` checks the project. Nothing was executed: every statement below is about the model.

## Main results

* `ArrayRuns.RunKeeps`: in every run of one array the slots, the block devices, the array state and the rebuild
  jobs stay consistent. `Conservation`, `RunSingleRebuild`, `NeedRecoverySafe`, `GoneForGood` and
  `AbortsExactly` are consequences of it.
* `ArrayRecords.RunRecords`, `ArrayRestart.Restart` and `RestartImportIff`: in every run in which records can be
  written, the boot record of every live data device equals the table of memory, and loading it gives that table
  back; exactly when the array that is imported from it is consistent again, whatever devices are missing.
* `ArrayRecords.RunStopsIff`: exactly when every rebuild that nobody stopped has all its destinations in REBUILD.
  `ObedientRunKeeps`: then it is enough for `RunKeeps` that a rebuild that was told to stop does not pass.
* `ArrayEffects`: for every consistent array, what each operation answers, with the exact condition of every answer, and
  everything it changes, said in terms of who holds what. `Raid.FailureIff`: exactly when each RAID type has failed.
* `MountSequence.RunConsistent`, `RunTidyIff` and `StoppedForever`: all components are up or none is; exactly when
  only components that are up are taken down; nothing comes back after STOP.
* `IoSplit.SplitPreservesBytes` and `SplitPreservesAddresses`: every tree of splits tiles the buffer and keeps addresses.
* `FlushIo.NoLostCompletion`: no completion is lost at the granularity of single atomic accesses.
* `ArrayManager.RunBijection` and `AllocatorService.JointLookupsAgree`: names, indices and allocators stay linked in
  every run of the manager and the allocators together.
* `SmartLog.FinishedOrder`, `NumaCreation.Select`.

## Where the code falls short of the property one expects

Each is proved with the condition under which the code meets the property, and with an input where it fails.

* A rebuild that reports PASS while one of its destinations is unplugged makes that slot NORMAL without a block
  device, and the process dies on the null device if the record can be written. `RebuildDoneKeepsIff` says that
  this is the only way a completion loses the invariant, `PassNullIff` when it dies; `LatePass` is the general
  case and `LatePassExample` a run.
* ResumeRebuild does not look at its targets. A slot that leaves REBUILD between the request and the resumption
  gets a rebuild that nobody stops. `ResumeStopsIff` and `RunStopsIff` give the condition, `ResumeUnplugged` the
  failing family and `ResumeUnpluggedExample` a run from an unmounted array.
* A detach whose record cannot be written returns before it stops the rebuild of the slot (`DetachStopsIff`,
  `DetachUnstopped`, `UnstoppedExample`).
* A detach that breaks the array writes no boot record, so the survivors' records are stale until the next Flush
  (`DetachAgreesIff`, `StaleRecordExample`). So they are if the record cannot be written.
* A RAID10 array on an odd number of devices leaves the last one out of both partitions; replacing that device
  runs into the assert (`OddRaid10LastSlot`, `OddRaid10Example`).
* A device that was being rebuilt and is missing at the next start is loaded as a REBUILD slot without a block device.
  The import inspection does not look at it, the array can be mounted, and the mount dies on the null device when it
  writes the record (`AcceptedSlotsIff`, `RestartInvIff`, `MissingRebuildCrashes`, `MissingRebuildExample`).
* A healthy array with all its devices can be refused at the next start: AddSpare compares a spare with the data devices
  of its time, the inspection with those of the start (`RestartAcceptedIff`, `InspectIff`, `RestartRefusedExample`).
* A failed mount disposes a component that is not up: the first one if the wait fails, component k if its Init
  fails (`MountTidyIff`, `MountUntidyExample`). An unmount or a break does so if NORMAL is not on the state list (`StepTidyIff`).
* Unmount leaves components up if the front component occurs again further back (`UnmountCompleteIff`,
  `UnmountRepeatedExample`).
* The flush flag is true to its name in every run in which no stripe is counted while a flusher holds a zero it read
  (`FlagTruthfulIfQuiet`); from every state in which one is, it can come early (`FlagEarlyIfNotQuiet`, `EarlyExample`).
* Importing a known or an empty name breaks the link of indices and names, and a refused import can free the
  index of another array of that name (`ImportBijectionIff`, `ImportRollbackIff`, `ImportAgainExample`).
* With a full table import reports success and does nothing. Create never gets there (`BelowLimitHasSlot`). Load
  does: it reports success and leaves out the arrays that do not fit (`LoadCompleteIff`, `LoadDropsExample`).
* Progress does not reach 100 if the 32-bit total is not positive or times 100 exceeds an int (`CompleteIs100Iff`,
  `OverflowExample`). The byte size of an I/O is wrong from 0x800000 sectors on (`CreatedSizeExactIff`, `LostSizeExample`).
* Array::Rebuild compares the event number that IsMountable returns, one of 0, 2528 and 2530, with true. The answer
  REBUILD_ARRAY_OFFLINED is therefore never given, and an unmounted array is called normal (`OfflineNeverAnswered`).

## Assumptions

* Every method under the array lock is one step. AddSpare and RemoveSpare change state under a read lock; Init, Dispose,
  Flush and MountDone take no lock; ReplaceDevice looks its target up before it locks; Unmount is one step although it
  consists of the unmountable check, Flush and Dispose. For these it is an assumption, as is that a new job is
  registered with the rebuilder before the next locked step.
* Signed arithmetic that overflows, which C++ leaves undefined, wraps around.
* A start of the system finds all its devices in class SYSTEM.
* Name and serial number identify a block device, and the empty name means no device. A device that was removed
  and plugged in again is a new block device. The registry serves one array.
* The device vector is NVM, then data, then spares. A data device keeps its position and is named by it.
* Writing a record succeeds when serialising it does; the source ignores the result of the write as well.
* In runs, a PASS arrives while no destination of its job is unplugged, be it before or after the job was started,
  and a run ends where the code asserts or dereferences null.
* Waits for a state context are a boolean, and other parties add and remove only their own contexts.
* In the runs of FlushIo stripes are counted before the scan-complete call and are decremented only after they were
  counted.
* In runs Load gets fresh, distinct, non-empty names, and an array is deleted only while its allocator is down.
* Merging one SMART page is atomic, and the merge starts at temperature 0.

## Model

| member | source | states |
|---|---|---|
| `Raid.PartitionNormal` | src/array/partition/stripe_partition.cpp:532-539 | a partition is NORMAL if and only if every device it spans is NORMAL, for every RAID type |
| `Raid.CombinedMonotone` | src/array/partition/partition_manager.cpp:121-129 | losing a device never improves the health of the array |
| `Raid.CombinedPattern` | src/array/partition/partition_manager.cpp:121-129 | health depends only on which devices are NORMAL: FAULT and REBUILD count the same |
| `Raid.FirstLoss` | src/array/ft/raid5.cpp:119-135 | the first loss in a NORMAL partition degrades it if the RAID type tolerates one, breaks it if not, and does nothing outside its span |
| `Raid.PartitionMonotone` | src/array/ft/raid10.cpp:91-110 | losing a device never improves a partition, RAID10 mirror pairs included |
| `Raid.SurvivorExists` | src/array/ft/raid6.cpp:165-181 | a partition of an accepted count that has not failed still has a NORMAL device |
| `Raid.FailureIff` | src/array/ft/raid6.cpp:165-181 | a partition has failed exactly when: RAID5 lost two devices, RAID6 three, RAID10 both of a mirrored pair, RAID0 and NONE one; the odd RAID10 device does not count |
| `Raid.CombinedIff` | src/array/partition/partition_manager.cpp:121-129 | the array has failed exactly when one partition has, and is NORMAL exactly when both are |
| `Raid.AcceptedLeavesTwo` | src/array/ft/raid5.cpp:153-160 | a count that RAID5 or RAID6 accepts leaves two NORMAL devices under all tolerated losses |
| `Raid.RefusedCanLeaveFewer` | src/array/ft/raid6.cpp:183-190 | and for every count that is refused there are tolerated losses that do not |
| `ArrayModel.FindName` | src/array/device/array_device_api.cpp:43-48 | the position of the first device with a name, or the end if there is none |
| `ArrayModel.Indices` | src/array/device/array_device_api.cpp:79-101 | exactly the slots in a state, in increasing order |
| `ArrayModel.SmallestNormal` | src/array/device/array_device_api.cpp:103-114 | the least size among the NORMAL devices, attained by one of them, and none exactly when no device is NORMAL |
| `ArrayModel.SpareToData` | src/array/device/array_device_list.cpp:136-160 | fails exactly when no spare is NORMAL; otherwise the slot gets the device of the first NORMAL spare, which leaves with what the slot held, and no other slot changes |
| `ArrayInvariants.SwapConserves` | src/array/device/array_device_list.cpp:136-160 | handing a spare to a data slot neither loses nor duplicates a block device; the slot's old device leaves with the spare |
| `ArrayInvariants.FindHolder` | src/array/array.cpp:659-664 | the search finds a device exactly when some slot holds it |
| `ArrayInvariants.SyncHealthSyncs` | src/array/state/array_state.cpp:290-325 | after a RAID state update the array state agrees with the health of the slots, and it is never REBUILD |
| `ArrayInvariants.FillKeeps` | src/array/array.cpp:1018-1032 | the erase-in-place loop keeps the first min(targets, spares) targets, in order, and uses the first as many spares |
| `ArrayInvariants.FillSlots` | src/array/array.cpp:1018-1032 | target k ends in REBUILD on the block device of spare k; every other slot is as before |
| `ArrayInvariants.FillConserves` | src/array/array.cpp:1018-1032 | deleting the swapped-out devices in the loop loses no block device |
| `ArraySteps.AddSpareKeeps` | src/array/array.cpp:246-296 | AddSpare keeps the invariant, whatever its reply |
| `ArraySteps.RemoveSpareKeeps` | src/array/array.cpp:298-329 | RemoveSpare keeps the invariant |
| `ArraySteps.ReplaceKeeps` | src/array/array.cpp:331-406 | ReplaceDevice keeps the invariant unless it asserts; the old device is parked in the rebuild job |
| `ArraySteps.UserRebuildKeeps` | src/array/array.cpp:408-465 | a user rebuild request keeps the invariant |
| `ArraySteps.UnplugKeeps` | src/array/array.cpp:888-896 | unplugging a data device keeps the invariant, during a rebuild and when the array breaks too |
| `ArraySteps.DetachDataKeeps` | src/array/array.cpp:876-920 | detaching a slot that is not FAULT keeps the invariant and never dereferences a null block device |
| `ArraySteps.IoErrorKeeps` | src/array/array.cpp:629-657 | the recoverability check keeps the invariant and never dereferences null |
| `ArraySteps.DetachSpareKeeps` | src/array/array.cpp:849-874 | detaching a spare keeps the invariant |
| `ArraySteps.DeviceDetachedKeeps` | src/array_mgmt/array_manager.cpp:359-383 | the removal of any device keeps the invariant: free, spare, data, parked or NVM |
| `ArraySteps.TriggerKeeps` | src/array/array.cpp:987-1049 | starting a rebuild keeps the invariant |
| `ArraySteps.ResumeKeeps` | src/array/array.cpp:1051-1068 | resuming a rebuild keeps the invariant |
| `ArraySteps.ExecuteKeeps` | src/array/rebuild/rebuild_handler.cpp:44-57 | running a queued rebuild event keeps the invariant, retries included |
| `ArraySteps.ReleaseSpec` | src/array/array.cpp:928-939 | a finished job frees exactly the block devices parked in it |
| `ArraySteps.SetNormalSpec` | src/array/array.cpp:940-945 | PASS makes exactly the destinations NORMAL, keeping their devices |
| `ArraySteps.PassSlots` | src/array/array.cpp:940-945 | PASS keeps "no device exactly when FAULT" if and only if no destination is unplugged |
| `ArraySteps.PassNullIff` | src/pbr/io/pbr_writer.cpp:46-64 | a completion dereferences null if and only if it passed, the record can be written and a destination is unplugged |
| `ArraySteps.RebuildDoneKeepsIff` | src/array/array.cpp:922-965 | completing a rebuild keeps the invariant if and only if it did not pass or no destination is unplugged |
| `ArrayRuns.StepKeeps` | src/array/array.cpp:246-1068 | every step of the array keeps the invariant |
| `ArrayRuns.RunKeeps` | src/array/array.cpp:246-1068 | every state of every run satisfies the invariant |
| `ArrayRuns.RunSingleRebuild` | src/array/array.cpp:888-963 | over every run: no device exactly when FAULT, at most one rebuild, and short of RAID failure REBUILD exactly while one is in flight |
| `ArrayRuns.TriggerStarts` | src/array/array.cpp:987-1049 | what a triggered rebuild leaves: job, slots and spares; without a spare the state is restored exactly |
| `ArrayRuns.ReplaceStarts` | src/array/array.cpp:369-394 | what an admitted and granted replacement leaves: the slot on the first spare in REBUILD, its old device parked in the job |
| `ArrayRuns.RollbackRestores` | src/array/array.cpp:378-394 | the rollback assignments of ReplaceDevice would restore the array exactly |
| `ArrayRuns.RollbackNotTaken` | src/array/array.cpp:356-394 | ReplaceDevice never gets to its rollback: it has just seen a NORMAL spare |
| `ArrayRuns.StepRemembers` | src/device/device_manager.cpp:294-330 | no step forgets a block device or brings a removed one back |
| `ArrayRuns.Conservation` | src/array/array.cpp:876-1032 | over every run each block device ever known is in exactly one place: one slot, one rebuild, the system, or removed |
| `ArrayRuns.IoErrorDetachesHolder` | src/array/array.cpp:629-657 | an I/O error changes the array if and only if the lock is free, the array is mounted and the slot still holds the named device; then exactly that slot is unplugged |
| `ArrayRuns.GoneForGood` | src/array/array.cpp:629-718 | a device that has left the system, however it left, is never detached again: after any events neither an error naming it, on any slot, nor a second removal changes anything |
| `ArrayRuns.DetachedAtMostOnce` | src/array/array.cpp:629-657 | after an error has detached a device, every later error naming it, on any slot and after any events, changes nothing |
| `ArrayRuns.ReplaceAborts` | src/array/array.cpp:369-377 | ReplaceDevice asserts if and only if it is admitted and the context is late or the loss of the slot would not leave the array DEGRADED |
| `ArrayRuns.AbortsExactly` | src/array/array.cpp:736-764 | the complete list of ways to abort: that case of ReplaceDevice, MountDone without a written record, and a PASS whose record goes to an unplugged destination |
| `ArrayRuns.OfflineNeverAnswered` | src/array/array.cpp:408-465 | a user rebuild is never answered with OFFLINED; on an unmounted array it changes nothing and answers IS_NORMAL exactly when it passes the checks for a spare, the RAID type and a rebuild in progress |
| `ArrayRuns.OddRaid10LastSlot` | src/array/partition/stripe_partition.cpp:71-86 | on an odd RAID10 array an admitted replacement asserts if and only if it names the last data device |
| `ArrayRuns.NeedRecoverySafe` | src/bio/ubio.cpp:396-425 | in every state of every run an I/O goes to recovery or finds a block device: the assert cannot fire |
| `ArrayRecords.UpdateAgrees` | src/array/array.cpp:556-621 | after a written update every live data device holds the table of memory |
| `ArrayRecords.StepRecords` | src/array/array.cpp:556-621 | every step keeps the agreement of memory and records while the array is mounted |
| `ArrayRecords.RunRecords` | src/array/array.cpp:556-621 | from MountDone to unmount, in every run in which records can be written, every live data device holds the table of memory |
| `ArrayRecords.DetachAgreesIff` | src/array/array.cpp:876-920 | after a detach memory and records agree if and only if the record can be written and the array could bear the loss of this device, or no other data device is live |
| `ArrayRecords.DetachStopsIff` | src/array/array.cpp:876-920 | a detach keeps "every running rebuild has all its destinations in REBUILD" if and only if its record can be written, the array is not in REBUILD, or the slot is no destination of a job that was not told to stop |
| `ArrayRecords.DetachUnstopped` | src/array/array.cpp:898-910 | whenever a destination is lost and the record cannot be written, the rebuild goes on with an empty slot |
| `ArrayRecords.ResumeStopsIff` | src/array/array.cpp:1051-1068 | resuming keeps that property if and only if it is refused or every target is in REBUILD |
| `ArrayRecords.StepStopsIff` | src/array/array.cpp:876-1068 | exactly two kinds of steps lose that property: resuming a slot that has left REBUILD, and losing a destination while no record can be written |
| `ArrayRecords.RunStopsIff` | src/array/array.cpp:876-1068 | in every run: in all states, while the array is in REBUILD, every job not told to stop has all destinations in REBUILD, if and only if no step is of these two kinds |
| `ArrayRecords.ObedientRunKeeps` | src/array/array.cpp:922-965 | if no step is of these two kinds and a rebuild passes only while the array is in REBUILD and the job was not told to stop, then no destination of a PASS is unplugged and the invariant holds throughout |
| `ArrayRecords.ResumeUnplugged` | src/array/array.cpp:1051-1068 | whenever the resumption of a slot is queued and an I/O error takes the device of the slot first, the resumption starts a rebuild of the empty slot that nobody stops |
| `ArrayRecords.LatePass` | src/array/array.cpp:922-965 | whenever an I/O error takes a destination and the job then passes, the slot is NORMAL without a device, and the process dies if and only if the record can be written |
| `ArrayRecords.RunRoomy` | src/array/device/array_device_manager.cpp:72-100 | if all data and spare devices have a least size at the start, they have it after every run |
| `ArrayRestart.AcceptedSlotsIff` | src/array/build/array_builder.cpp:54-62 | in a table that passes the inspection a slot is without a device exactly when it is FAULT, if and only if every device in REBUILD is present; otherwise a record would go to null |
| `ArrayRestart.InspectIff` | src/array/device/array_device_api.cpp:116-150 | which tables pass: first NVM present, a NORMAL data device, none below the minimum, every NORMAL spare as large as some NORMAL data device |
| `ArrayRestart.AcceptedPresent` | src/array/device/array_device_api.cpp:116-150 | a table that passes misses no NORMAL data device and no NORMAL spare |
| `ArrayRestart.ClaimSpec` | src/array/device/array_device_list.cpp:61-75 | import moves exactly the devices of the table to class ARRAY |
| `ArrayRestart.RestartInvIff` | src/array/array.cpp:105-140 | an array imported from the table of any consistent array, with whatever devices are there, is consistent if and only if every NVM and every device in REBUILD is there, once it passed the inspection |
| `ArrayRestart.MissingRebuildCrashes` | src/array/array.cpp:736-764 | whenever a device in REBUILD is missing and the table passes, the array mounts and MountDone dereferences null |
| `ArrayRestart.LoadAt` | src/array/build/device_builder.cpp:93-113 | a loaded device keeps its state, and one that was FAULT gets no block device even if it is there |
| `ArrayRestart.LoadTable` | src/array/build/device_builder.cpp:93-113 | loading the table of memory gives the devices of memory back: the two are inverse |
| `ArrayRestart.Restart` | src/array/build/device_builder.cpp:93-113 | at any point of any run with written records, the record of any live data device restores the whole device table |
| `ArrayRestart.RestartImportIff` | src/array/array.cpp:105-140 | the same from the record of any live data device at any point of any run with written records |
| `ArrayRestart.RestartAcceptedIff` | src/array/device/array_device_api.cpp:116-150 | with all devices there, the inspection of the record of an array is that of its slots |
| `ArrayEffects.SyncHealthMounted` | src/array/state/array_state.cpp:290-325 | a RAID state update breaks the array exactly on a failure and never mounts or unmounts it |
| `ArrayEffects.RecoverableMeans` | src/array/state/array_state.cpp:402-423 | the array is called recoverable exactly while its health is degraded |
| `ArrayEffects.IoErrorReply` | src/array/array.cpp:629-657 | the answer to an I/O error: retry if the lock is taken, failure if not mounted, success if the slot no longer holds the device, and otherwise success exactly when the array is degraded without it |
| `ArrayEffects.UnplugStates` | src/array/array.cpp:888-894 | the array state after a loss, from the RAID health without the device and the state before |
| `ArrayEffects.DetachOutcome` | src/array/array.cpp:876-920 | everything a detach changes: slot, registry, stop requests and queue |
| `ArrayEffects.DeviceDetachedEffect` | src/array/array.cpp:666-718 | the answer to the removal of a device, with its exact condition, and exactly which slot or spare goes |
| `ArrayEffects.AddSpareReply` | src/array/array.cpp:246-296 | AddSpare succeeds exactly for a free device no smaller than some NORMAL data device, on a mounted array of a RAID type that bears losses, while the record can be written; which refusal is given when |
| `ArrayEffects.AddSpareAdds` | src/array/array.cpp:267-291 | what it adds: the device as the last spare in class ARRAY, a written record, and on a degraded array the request to rebuild exactly the lost devices |
| `ArrayEffects.RemoveSpareEffect` | src/array/array.cpp:298-329 | RemoveSpare takes exactly the named spare and frees its device, and refuses every other name |
| `ArrayEffects.ReplaceReply` | src/array/array.cpp:331-406 | what ReplaceDevice answers for a held device, check by check; a refusal changes nothing |
| `ArrayEffects.ReplaceUnknown` | src/array/array.cpp:331-341 | a device that no data slot holds is not found; the empty name is that of a lost data device |
| `ArrayEffects.UserRebuildEffect` | src/array/array.cpp:408-465 | when a user rebuild is accepted, which refusal is given when, and that it asks for the suspended or else the lost slots with the right resume flag, whatever the automatic setting |
| `ArrayEffects.TriggerRefused` | src/array/array.cpp:991-1016 | a triggered rebuild is retried exactly while a target still has its device; retried or refused, it changes nothing |
| `ArrayEffects.ResumeEffect` | src/array/array.cpp:1051-1068 | a resumption starts a job on exactly the requested slots, or changes nothing |
| `ArrayEffects.ExecuteQueue` | src/array/rebuild/rebuild_handler.cpp:44-57 | a queued event, and only it, leaves the queue unless it is retried |
| `ArrayEffects.RebuildDoneEffect` | src/array/array.cpp:922-965 | everything a completion changes: job, slots, classes of the parked devices, array state and queue |
| `ArrayEffects.MountableCodes` | src/array/state/array_state.cpp:166-191 | 2528 for a mounted, 2530 for a failed array, otherwise 0 |
| `ArrayEffects.InitEffect` | src/array/array.cpp:142-171 | when a mount is accepted, and the state it gives |
| `ArrayEffects.UnmountEffect` | src/array/array.cpp:173-204 | when an unmount is accepted, the record it writes and the state it gives |
| `ArrayEffects.MountDoneEffect` | src/array/array.cpp:736-764 | what the end of a mount asks for, and that it writes the record |
| `ArrayEffects.InternalEffect` | src/array/array.cpp:195-204 | a flush writes the record and changes nothing else |
| `ArrayEffects.UpdateExactly` | src/array/array.cpp:556-584 | exactly the data devices that are not FAULT get the record, all others keep theirs |
| `ArrayEffects.TableAt` | src/array/array.cpp:596-604 | one entry per device with its serial, state, kind and, for data, position |
| `ArrayEffects.NeedRecoveryIff` | src/bio/ubio.cpp:396-425 | reads of a slot in REBUILD and all I/O of a lost slot are recovered; everything else goes to the device of the slot |
| `ArrayEffects.ImportedIdle` | src/array/array.cpp:105-140 | an imported array is not mounted and has nothing queued or running |
| `ArrayEffects.InspectCodes` | src/array/device/array_device_api.cpp:116-150 | which code of the inspection is given when |
| `ArrayExamples.LatePassExample` | src/array/array.cpp:922-965 | a RAID5 array on which an I/O error and then a PASS leave a NORMAL slot without a block device |
| `ArrayExamples.ResumeUnpluggedExample` | src/array/array.cpp:1051-1068 | a run of Init, MountDone, an I/O error and the queued resumption that ends with a rebuild of an empty slot |
| `ArrayExamples.UnstoppedExample` | src/array/array.cpp:898-910 | a RAID5 array that loses the slot in REBUILD while no record can be written: the rebuild goes on |
| `ArrayExamples.StaleRecordExample` | src/array/array.cpp:876-920 | a RAID5 array that loses its second device: the record of the survivor no longer matches memory |
| `ArrayExamples.OddRaid10Example` | src/array/partition/stripe_partition.cpp:71-86 | a healthy RAID10 array on three devices with a spare: replacing the last device asserts, replacing the first does not |
| `ArrayExamples.MissingRebuildExample` | src/array/build/array_builder.cpp:54-62 | a RAID5 array whose device in REBUILD is missing: accepted, mounted, crashed |
| `ArrayExamples.RestartRefusedExample` | src/array/device/array_device_api.cpp:141-148 | a run of a replacement and its completion after which a healthy RAID5 array is refused at the next start, although it would have been accepted before |
| `ArrayObject.ExtractByState` | src/array/device/array_device_api.cpp:79-101 | the loop computes the specified index list |
| `ArrayObject.FindDevByName` | src/array/device/array_device_api.cpp:43-48 | the loop finds the specified position |
| `ArrayObject.GetMinimumCapacity` | src/array/device/array_device_api.cpp:103-114 | the loop computes the least NORMAL capacity, 0 if there is none |
| `ArrayObject.LoadDevices` | src/array/build/device_builder.cpp:93-113 | the loop loads the devices of one kind |
| `ArrayObject.ClaimDevices` | src/array/device/array_device_list.cpp:61-75 | the loop changes the classes |
| `ArrayObject.ImportInspection` | src/array/device/array_device_api.cpp:116-150 | refines the inspection with its codes |
| `ArrayObject.WriteRecords` | src/pbr/update/pbr_updater.cpp:72-94 | exactly the devices before the first null one get the record, all others keep theirs |
| `ArrayObject.Array.Import` | src/array/array.cpp:105-140 | refines the import of a loaded table: slots, classes and array state |
| `ArrayObject.Array.GetPbrDevs` | src/array/array.cpp:569-584 | exactly the devices of the slots that are not FAULT, with a null among them exactly when such a slot has none |
| `ArrayObject.Array.BuildAteData` | src/array/array.cpp:586-621 | the loops build the table of memory |
| `ArrayObject.Array.UpdatePbr` | src/array/array.cpp:556-561 | refines the record update, and crashes exactly when it is written to a slot without a block device |
| `ArrayObject.Array.InvokeRebuild` | src/array/array.cpp:967-985 | refines the queueing of a rebuild event |
| `ArrayObject.Array.UpdateRaidState` | src/array/state/array_state.cpp:290-325 | refines the array state update |
| `ArrayObject.Array.SetRebuild` | src/array/state/array_state.cpp:371-388 | granted exactly from DEGRADED with the context in time, otherwise nothing changes |
| `ArrayObject.Array.SetRebuildDone` | src/array/state/array_state.cpp:425-441 | refines the end of the REBUILD state |
| `ArrayObject.Array.SpareToData` | src/array/device/array_device_list.cpp:136-160 | refines the hand-over of a spare; on failure nothing changes |
| `ArrayObject.Array.RemoveDevice` | src/device/device_manager.cpp:294-330 | refines the removal of a device |
| `ArrayObject.Array.AddSpare` | src/array/array.cpp:246-296 | reply and new state are those of the step function; the invariant is kept |
| `ArrayObject.Array.RemoveSpare` | src/array/array.cpp:298-329 | reply and new state are those of the step function; the invariant is kept |
| `ArrayObject.Array.ReplaceDevice` | src/array/array.cpp:331-406 | reply and new state are those of the step function; the invariant is kept unless it asserts |
| `ArrayObject.Array.StartQuickRebuild` | src/array/array.cpp:369-405 | the part of ReplaceDevice after its checks, with the assert and the swap |
| `ArrayObject.Array.Unplug` | src/array/array.cpp:888-896 | refines the memory part of a detach |
| `ArrayObject.Array.DetachData` | src/array/array.cpp:876-920 | refines the detach of a data device and keeps the invariant |
| `ArrayObject.Array.IsRecoverable` | src/array/array.cpp:629-657 | reply and new state are those of the step function; the invariant is kept |
| `ArrayObject.Array.DetachDevice` | src/array/array.cpp:666-718 | reply and new state are those of the step function; the invariant is kept |
| `ArrayObject.Array.RemoveSpareDevice` | src/array/array.cpp:849-874 | refines the detach of a spare |
| `ArrayObject.Array.RequestRebuild` | src/array/array.cpp:408-465 | refines the user request, its dead branch included; the assert on an empty target list never fires |
| `ArrayObject.Array.FillLoop` | src/array/array.cpp:1018-1032 | the loop that erases from the list it walks terminates and computes the specified slots and targets |
| `ArrayObject.Array.TriggerRebuild` | src/array/array.cpp:987-1049 | refines the start of a rebuild, its retry flag included, and keeps the invariant |
| `ArrayObject.Array.ResumeRebuild` | src/array/array.cpp:1051-1068 | refines the resumption and keeps the invariant |
| `ArrayObject.Array.ReleaseSources` | src/array/array.cpp:928-939 | the loop frees the parked devices |
| `ArrayObject.Array.SetAllNormal` | src/array/array.cpp:940-945 | the loop makes the destinations NORMAL |
| `ArrayObject.Array.RebuildDone` | src/array/array.cpp:922-965 | refines the completion; it crashes, and the invariant holds afterwards, exactly under the conditions above |
| `ArrayObject.Array.Recheck` | src/array/array.cpp:952-963 | refines the end of the completion: array state and new rebuild request |
| `ArrayObject.Array.Requeue` | src/array/array.cpp:736-761 | refines the choice of what to rebuild after a mount: suspended slots first |
| `ArrayObject.Array.MountDone` | src/array/array.cpp:736-764 | refines the end of a mount and keeps the invariant |
| `MountProgress.PercentExact` | src/array_components/array_mount_progress.cpp:49-56 | within the int range the figure is the exact percentage, 0 to 100 |
| `MountProgress.ReportsMonotone` | src/array_components/array_mount_progress.cpp:44-74 | any sequence of updates up to the total reports figures that never fall and stay in 0 to 100 |
| `MountProgress.CompleteIs100Iff` | src/array_components/array_mount_sequence.cpp:71-79 | for every total: a completed mount reports 100 if and only if the 32-bit total is positive and times 100 fits an int |
| `MountProgress.OverflowExample` | src/array_components/array_mount_progress.cpp:49-56 | a total of 21474837 is reported as -99 when it is complete |
| `MountProgress.ArrayMountProgress.constructor` | src/array_components/array_mount_progress.cpp:37-42 | starts idle with its total |
| `MountProgress.ArrayMountProgress.Get` | src/array_components/array_mount_progress.cpp:49-56 | -1 while idle; else, within the int range, the exact percentage, and 100 if and only if everything is done |
| `MountProgress.ArrayMountProgress.Update` | src/array_components/array_mount_progress.cpp:44-47 | adds in 32-bit arithmetic and reports |
| `MountProgress.ArrayMountProgress.Set` | src/array_components/array_mount_progress.cpp:58-61 | starts at 0 and reports |
| `MountProgress.ArrayMountProgress.Reset` | src/array_components/array_mount_progress.cpp:63-66 | goes idle and reports nothing |
| `MountSequence.LiveMount` | src/array_components/array_mount_sequence.cpp:94-176 | from nothing up, an admitted mount ends with everything up or, on a failed Init or wait, with nothing up |
| `MountSequence.LiveUnmount` | src/array_components/array_mount_sequence.cpp:178-232 | exactly which components an admitted unmount leaves up |
| `MountSequence.LiveBreak` | src/array_components/array_mount_sequence.cpp:234-280 | breaking takes every component down and initialises none |
| `MountSequence.StepConsistent` | src/array_components/array_mount_sequence.cpp:94-280 | every mount, unmount, break or foreign context change keeps the sequence consistent |
| `MountSequence.RunConsistent` | src/array_components/array_mount_sequence.cpp:94-280 | over every run all components are up or none is, no component is initialised twice, and the sequence leaves no context or only the normal one |
| `MountSequence.StoppedForever` | src/array_components/array_mount_sequence.cpp:94-113 | once STOP is on the state list no component is called again, and STOP stays |
| `MountSequence.UnmountCompleteIff` | src/array_components/array_mount_sequence.cpp:206-231 | an unmount takes everything down if and only if the front component occurs once |
| `MountSequence.UnmountRepeatedExample` | src/array_components/array_mount_sequence.cpp:206-231 | three positions with the front component at both ends: two stay up after an unmount |
| `MountSequence.MountTidyIff` | src/array_components/array_mount_sequence.cpp:94-176 | an admitted mount disposes only components that are up if and only if it succeeds |
| `MountSequence.MountUntidyExample` | src/array_components/array_mount_sequence.cpp:160-172 | a failed wait and a failed second Init each dispose a component that is not up |
| `MountSequence.UnmountTidyIff` | src/array_components/array_mount_sequence.cpp:206-231 | an unmount of distinct components disposes only components that are up if and only if all are up |
| `MountSequence.BreakTidyIff` | src/array_components/array_mount_sequence.cpp:234-280 | a break shuts down only components that are up if and only if all are up |
| `MountSequence.StepTidyIff` | src/array_components/array_mount_sequence.cpp:94-280 | which events take down only what is up, told from the state list before the event and the answers of the components |
| `MountSequence.RunTidyIff` | src/array_components/array_mount_sequence.cpp:94-280 | a run takes down only what is up if and only if all its events do |
| `MountSequence.MountOrder` | src/array_components/array_mount_sequence.cpp:115-172 | call by call: 0, 1, ... are initialised in order; after a failure at k exactly k, k-1, ..., 0 are disposed |
| `MountSequence.UnmountOrder` | src/array_components/array_mount_sequence.cpp:206-227 | call by call: volumes, n-1 down to 1, then the front component flushed and disposed last |
| `MountSequence.BreakOrder` | src/array_components/array_mount_sequence.cpp:234-280 | call by call: volumes, Shutdown from n-1 down to 0, Flush from n-1 down to 0 |
| `MountSequence.AdmittedIff` | src/array_components/array_mount_sequence.cpp:101-113 | which events call components at all |
| `MountSequence.ContextsAfter` | src/array_components/array_mount_sequence.cpp:154-230 | what each event does to the state list |
| `MountObject.MountReports` | src/array_components/array_mount_sequence.cpp:71-148 | for any estimates whose total times 100 fits an int, a successful mount reports rising figures in 0 to 100 and ends at 100 |
| `MountObject.MountReportAt` | src/array_components/array_mount_sequence.cpp:125-148 | the figure after the j-th Init is the share of the overhead and the first j estimates |
| `MountObject.UnmountReports` | src/array_components/array_mount_sequence.cpp:207-227 | the same for an unmount |
| `MountObject.UnmountReportAt` | src/array_components/array_mount_sequence.cpp:207-227 | the figure after the j-th component from the back is the share of the overhead and the last j estimates |
| `MountObject.ArrayMountSequence.constructor` | src/array_components/array_mount_sequence.cpp:55-80 | the totals are the overheads plus the estimates, and nothing is up |
| `MountObject.ArrayMountSequence.InitAll` | src/array_components/array_mount_sequence.cpp:125-153 | initialises 0, 1, ... up to and including the first failure, with a report after each |
| `MountObject.ArrayMountSequence.Rollback` | src/array_components/array_mount_sequence.cpp:160-172 | the endless-looking loop terminates and disposes exactly k, k-1, ..., 0 |
| `MountObject.ArrayMountSequence.Mount` | src/array_components/array_mount_sequence.cpp:94-176 | reply, calls, contexts and reports for every context set, wait result and Init result |
| `MountObject.ArrayMountSequence.DisposeAll` | src/array_components/array_mount_sequence.cpp:206-227 | disposes in reverse order with the front flushed and disposed last |
| `MountObject.ArrayMountSequence.Unmount` | src/array_components/array_mount_sequence.cpp:178-232 | reply, calls, contexts and reports |
| `MountObject.ArrayMountSequence.ShutdownAll` | src/array_components/array_mount_sequence.cpp:245-254 | shuts down in reverse order |
| `MountObject.ArrayMountSequence.FlushAll` | src/array_components/array_mount_sequence.cpp:257-265 | flushes in reverse order |
| `MountObject.ArrayMountSequence.Break` | src/array_components/array_mount_sequence.cpp:267-280 | shuts down and flushes exactly when the array was up |
| `IoSplit.CreatedSizeExactIff` | src/bio/ubio.cpp:58-76 | the 32-bit size product is whole sectors, and is exact if and only if there are fewer than 0x800000 sectors |
| `IoSplit.LostSizeExample` | src/bio/ubio.cpp:58-76 | an I/O of 0x800000 sectors gets a buffer of size 0 |
| `IoSplit.RejectedIff` | src/bio/ubio.cpp:285-303 | a split is refused if and only if it asks for more than the buffer holds, in spite of the unsigned wrap |
| `IoSplit.SplitMeans` | src/bio/volume_io.cpp:92-108 | the two parts are adjacent, their sizes add up, their addresses follow each other, and the owner stays with the original |
| `IoSplit.PartsTile` | src/bio/ubio.cpp:285-303 | any split of a fragment, refused or not, tiles that fragment and keeps the number of owners |
| `IoSplit.RunTiles` | src/bio/data_buffer.cpp:141-161 | any tree of splits tiles the range and keeps the number of owners |
| `IoSplit.SplitPreservesBytes` | src/bio/volume_io.cpp:92-108 | reading through the fragments of any tree of splits equals reading the original, with at most one owner |
| `IoSplit.SplitPreservesAddresses` | src/bio/data_buffer.cpp:95-121 | sector s of any fragment lies at original base + sector size * (fragment RBA + s - original RBA), and fragments never overlap |
| `IoSplit.AddressInBuffer` | src/bio/data_buffer.cpp:95-121 | an address inside the buffer is found there; a null or too short buffer answers with its base |
| `IoSplit.VolumeIo.constructor` | src/bio/volume_io.cpp:58-73 | size, unset address, and ownership exactly for a buffer it allocates |
| `IoSplit.VolumeIo.FromCopy` | src/bio/volume_io.cpp:75-86 | a copy shares the memory and does not own it |
| `IoSplit.VolumeIo.RemoveBytes` | src/bio/data_buffer.cpp:141-161 | refines the removal; a refused one changes nothing |
| `IoSplit.VolumeIo.SplitOff` | src/bio/volume_io.cpp:92-108 | both objects are the two parts of the split; a refused split leaves this object unchanged |
| `FlushIo.StepInv` | src/bio/flush_io.cpp:137-163 | with the scan complete, the count zero and the flag unset, somebody is still going to set it: kept by every atomic access |
| `FlushIo.NoLostCompletion` | src/bio/flush_io.cpp:137-163 | scan complete, count zero and no call in flight imply the flag, for any interleaving |
| `FlushIo.FlagTruthfulIfQuiet` | src/bio/flush_io.cpp:143-152 | the flag tells the truth in every run in which no increase meets a flusher holding a zero |
| `FlushIo.FlagEarlyIfNotQuiet` | src/bio/flush_io.cpp:143-152 | from any state where an increase meets such a flusher, the flag can come early |
| `FlushIo.EarlyExample` | src/bio/flush_io.cpp:143-152 | a complete run from the start that sets the flag with one stripe outstanding |
| `FlushIo.FlushCounter.constructor` | src/bio/flush_io.cpp:39-53 | starts at zero with the scan incomplete |
| `FlushIo.FlushCounter.IncreaseStripeCnt` | src/bio/flush_io.cpp:137-141 | counts in 32-bit arithmetic, and keeps "flag exactly when the scan is complete and the count zero" if and only if the scan is not complete or the count is neither 0 nor -1 |
| `FlushIo.FlushCounter.DecreaseStripeCnt` | src/bio/flush_io.cpp:143-152 | uncounts in 32-bit arithmetic, and keeps that equivalence if and only if the flush was not already complete |
| `FlushIo.FlushCounter.StripesScanComplete` | src/bio/flush_io.cpp:154-163 | completes the scan and keeps that equivalence |
| `FlushIo.FlushCounter.IsStripesFlushComplete` | src/bio/flush_io.cpp:165-169 | with whole calls as steps, true if and only if the scan is complete and the count zero |
| `ArrayManager.FirstSlot` | src/array_mgmt/array_manager.cpp:562-574 | the first slot with a name, or the end |
| `ArrayManager.ReleaseOwn` | src/array_mgmt/array_manager.cpp:576-587 | releasing a live array frees exactly its own slot |
| `ArrayManager.ImportBijectionIff` | src/array_mgmt/array_manager.cpp:165-195 | importing keeps slots and map in bijection if and only if the name is new and not empty |
| `ArrayManager.ImportRollbackIff` | src/array_mgmt/array_manager.cpp:165-195 | a refused import restores the table if and only if it is full or no earlier slot has that name |
| `ArrayManager.ImportAgainExample` | src/array_mgmt/array_manager.cpp:165-195 | a table with one array: importing its name again, or an empty one, breaks the bijection, and a refusal frees the wrong slot |
| `ArrayManager.BelowLimitHasSlot` | src/array_mgmt/array_manager.cpp:134-163 | below the limit of arrays there is a free slot, by counting |
| `ArrayManager.FullTable` | src/array_mgmt/array_manager.cpp:562-574 | there are never more arrays than indices, and at the limit no index is free |
| `ArrayManager.CreateKeeps` | src/array_mgmt/array_manager.cpp:134-163 | Create keeps the bijection, and success means that the array is there |
| `ArrayManager.CreateReply` | src/array_mgmt/array_manager.cpp:134-163 | Create succeeds exactly for a new name below the limit that is built and imported; which code is given otherwise, with the table unchanged |
| `ArrayManager.CreateAdds` | src/array_mgmt/array_manager.cpp:134-163 | a created array gets an index of its own; no other array moves |
| `ArrayManager.DeleteKeeps` | src/array_mgmt/array_manager.cpp:197-218 | Delete keeps the bijection |
| `ArrayManager.DeleteEffect` | src/array_mgmt/array_manager.cpp:197-218 | Delete succeeds exactly for a known array that lets itself be deleted, and removes exactly its name and index |
| `ArrayManager.LoadKeeps` | src/array_mgmt/array_manager.cpp:102-132 | Load of any fresh names keeps the bijection, wherever it stops |
| `ArrayManager.LoadFits` | src/array_mgmt/array_manager.cpp:102-132 | of stored arrays that can all be imported, exactly the first ones that fit are loaded, and the reply is success |
| `ArrayManager.LoadCompleteIff` | src/array_mgmt/array_manager.cpp:102-132 | all of them are loaded if and only if they fit below the limit; the reply is success either way |
| `ArrayManager.LoadStopsAt` | src/array_mgmt/array_manager.cpp:102-132 | Load stops at the first table that is not built or is refused while an index is free, with that code, and keeps what was loaded before |
| `ArrayManager.LoadDropsExample` | src/array_mgmt/array_manager.cpp:102-132 | three stored arrays: the third is dropped and the reply is success |
| `ArrayManager.ResetKeeps` | src/array_mgmt/array_manager.cpp:472-511 | ResetPbr keeps the bijection even when deletions fail |
| `ArrayManager.ResetDeletes` | src/array_mgmt/array_manager.cpp:472-511 | ResetPbr deletes exactly the arrays before the first that refuses |
| `ArrayManager.ResetEmpties` | src/array_mgmt/array_manager.cpp:472-511 | if every deletion succeeds ResetPbr leaves the initial table |
| `ArrayManager.RunBijection` | src/array_mgmt/array_manager.cpp:102-218 | slots and map are in bijection after every run |
| `ArrayManager.StepStable` | src/array_mgmt/array_manager.cpp:102-218 | no request moves an array that stays to another index |
| `ArrayManager.Manager.constructor` | src/array_mgmt/array_manager.h:116 | starts with all slots free |
| `ArrayManager.Manager.AllocArrayIndex` | src/array_mgmt/array_manager.cpp:562-574 | takes the first free slot, or changes nothing |
| `ArrayManager.Manager.ReleaseArrayIndex` | src/array_mgmt/array_manager.cpp:576-587 | frees the first slot with the name |
| `ArrayManager.Manager.ImportArray` | src/array_mgmt/array_manager.cpp:165-195 | refines the import on the slot array and the map |
| `ArrayManager.Manager.CreateArray` | src/array_mgmt/array_manager.cpp:134-163 | refines Create and keeps the bijection |
| `ArrayManager.Manager.DeleteArray` | src/array_mgmt/array_manager.cpp:197-218 | refines Delete and keeps the bijection |
| `ArrayManager.Manager.LoadArrays` | src/array_mgmt/array_manager.cpp:102-132 | the loop refines Load, with its reply |
| `ArrayManager.Manager.ResetPbr` | src/array_mgmt/array_manager.cpp:472-511 | the loop refines the deletion of all arrays and keeps the bijection; the records are cleared, and the reply is success, exactly when no deletion and not the clearing failed |
| `ArrayManager.Manager.GetInfo` | src/array_mgmt/array_manager.cpp:409-423 | lookup by index finds the unique owner of the index, or none exactly when nobody has it |
| `AllocatorService.SideBySideIff` | src/allocator_service/allocator_service.cpp:47-86 | two arrays can be looked up side by side if and only if their indices differ or their interfaces coincide |
| `AllocatorService.StepKeeps` | src/allocator/allocator.cpp:86-180 | an allocator is registered exactly while initialised: kept by Init, Dispose, Shutdown, arrival and departure |
| `AllocatorService.RegistrationEffect` | src/allocator/allocator.cpp:86-180 | a successful Init leaves the allocator initialised and found by name; Dispose and Shutdown undo it; no other array notices |
| `AllocatorService.RunKeeps` | src/allocator/allocator.cpp:86-180 | the same after every run |
| `AllocatorService.LookupsAgree` | src/allocator_service/allocator_service.cpp:88-186 | after every run lookups by name and by index agree, and give the interfaces exactly while the allocator is initialised, else null |
| `AllocatorService.CreatedIndexIsFree` | src/array_mgmt/array_manager.cpp:165-195 | the index Create hands out is free in the registry: the distinct-index assumption is met by the manager |
| `AllocatorService.JointStepKeeps` | src/array_mgmt/array_manager.cpp:102-218 | every request to the manager and every step of an allocator keeps the two linked |
| `AllocatorService.JointLookupsAgree` | src/allocator_service/allocator_service.cpp:88-186 | over every run of the manager and the allocators together, lookups by name and by the index the manager gave agree, so distinct indices need not be assumed |
| `AllocatorService.Registry.constructor` | src/allocator_service/allocator_service.cpp:38-45 | starts with no name and null tables |
| `AllocatorService.Registry.RegisterAllocator` | src/allocator_service/allocator_service.cpp:47-66 | writes all five tables at the index, or changes nothing for a known name |
| `AllocatorService.Registry.UnregisterAllocator` | src/allocator_service/allocator_service.cpp:68-86 | clears all five tables and the name |
| `AllocatorService.Registry.GetByName` | src/allocator_service/allocator_service.cpp:88-157 | the five lookups by name |
| `SmartLog.MergeAllSummary` | src/admin/smart_log_update_request.cpp:68-126 | merging gives, per field, the maximum or minimum over the pages that report a temperature, or the initial page if none does |
| `SmartLog.SummaryUnique` | src/admin/smart_log_update_request.cpp:68-126 | that summary determines every field but the units read |
| `SmartLog.MergeOrder` | src/admin/smart_log_update_request.cpp:68-126 | the merged page, units read aside, is the same for every order of arrival and every repetition |
| `SmartLog.FinishedOrder` | src/admin/disk_smart_complete_handler.cpp:55-112 | the finished page is the same for every order of arrival |
| `SmartLog.FinishMeans` | src/admin/disk_smart_complete_handler.cpp:55-100 | what the finished page tells: commands and data units of the log manager, extremes over the disks, mean of the hottest disk and the CPU in kelvin |
| `SmartLog.FinishSensors` | src/admin/disk_smart_complete_handler.cpp:66-74 | the sensors: maxima over the disks, with the CPU in the first empty one |
| `SmartLog.UnitsReadFirst` | src/admin/smart_log_update_request.cpp:73-86 | before the finishing step the units read are those of the first page with a temperature |
| `SmartLog.FillSensorAt` | src/admin/disk_smart_complete_handler.cpp:66-74 | exactly the first empty sensor gets the value, or none if all are filled |
| `SmartLog.ResultPage.MergePage` | src/admin/smart_log_update_request.cpp:68-126 | the field-by-field update with its sensor loop refines the merge |
| `SmartLog.ResultPage.CopySensors` | src/admin/smart_log_update_request.cpp:84-85 | the loop takes over all sensors |
| `SmartLog.ResultPage.RaiseSensors` | src/admin/smart_log_update_request.cpp:121-123 | the loop raises every sensor to the larger value |
| `SmartLog.ResultPage.FillFirstEmpty` | src/admin/disk_smart_complete_handler.cpp:66-74 | the loop with its break refines the fill |
| `SmartLog.ResultPage.FinishPage` | src/admin/disk_smart_complete_handler.cpp:55-112 | refines the finishing step |
| `NumaCreation.Candidates` | src/array_mgmt/numa_awared_array_creation.cpp:54-58 | exactly the free SSDs of the NUMA node |
| `NumaCreation.GroupBySize` | src/helper/enumerable/query.h:40-51 | one group per size that occurs, holding exactly the devices of that size in order |
| `NumaCreation.FirstFit` | src/array_mgmt/numa_awared_array_creation.cpp:62-105 | the smallest size whose group is large enough, or none |
| `NumaCreation.Deal` | src/array_mgmt/numa_awared_array_creation.cpp:75-89 | for all counts: the first devices of the group become data devices, the next ones spares, as far as the group reaches; a negative count takes none |
| `NumaCreation.Select` | src/array_mgmt/numa_awared_array_creation.cpp:41-117 | for all counts, their sum taken as an int: proposes devices if and only if some size occurs often enough on the node, and then exactly one option from the smallest such size, with its capacity; otherwise the right code, which is success only if nothing is required and the node has no free SSD |
| `NumaCreation.ChoiceSound` | src/array_mgmt/numa_awared_array_creation.cpp:53-116 | the devices of the option are distinct, free, of one size and on the node, and as many as requested if and only if the group has them, as it always has unless the sum of the counts overflows |

## Left out

- src/cli: request parsing and response formatting over the managers modelled here.
- Admin command dispatch, disk query submission, SMART file I/O and sysfs reads; the CPU temperature is a parameter.
- SmartLogMgr counters: plain additions, taken as inputs of the finishing step.
- Allocator metadata dumps, GC thresholds, PrepareRebuild, and block, stripe and segment allocation.
- Array::Delete, the import of a newly created array, which formats it, and the loading of its partitions; a table whose device count a partition refuses is not imported.
- Array states TRY_MOUNT, TRY_UNMOUNT and NOT_EXIST, and the state contexts that ArrayState itself invokes and removes.
- Telemetry, logging, debug queues and Serialize.
- Threads, timeouts and condition variables: a wait is a boolean, a detached rebuild thread is a pending job.
- The copying of data by a rebuild: a job is its destinations and sources, and its result is an input.
- Freeing of memory, beyond the flag that says who owns a buffer.
- IsPollingNecessary, which is true for write-through, reads and unaligned writes, and the other accessors of VolumeIo and Ubio, which read or set one field.
- ArrayDevice as a heap object: a device is a slot named by its index, so aliasing of device pointers is not modelled.
- Array::Init, Dispose and Flush as methods of the class Array: they are step functions only.
- ArrayManager.Manager.ResetPbr: says whether the records of all SSDs are cleared, not what a cleared record holds.
- ArrayManager.LoadKeeps: starts from the stored tables; reading them from the devices is not modelled.
