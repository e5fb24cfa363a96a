# A verified model of the EVRMA driver

EVRMA is a Linux driver that divides one event receiver card, a MNG_DEV, into up
to 31 virtual devices, the VIRT_DEVs. This project models the driver without its
kernel plumbing and proves what it promises to the users of VIRT_DEVs: that events
reach exactly the readers subscribed to them, that the card is programmed to match
the subscriptions, that one VIRT_DEV cannot disturb the pulse generators of
another, and that a card can be pulled out at any time.

`dafny verify dfyconfig.toml` checks everything.

## How the model is built

The files follow the driver from the interrupt to the reader and from the reader
to the card.

- `PacketQueue.dfy`, `QueueInterleaving.dfy`, `QueueCopies.dfy`, `Backlog.dfy`: the
  queue of a VIRT_DEV (`src/packet-queue.c`). The class `CircBuf` is the code, one
  field access after the other; the second file lets producer and consumer take
  turns in any way, so that no step reads or writes more than one thing that the
  other side writes or reads; the third says how much a get copies, and the last
  what is in a queue for its readers.
- `EventList.dfy`: event bitmaps and the dispatch table (`src/event-list.c`), the
  table as the flat block of pointers that the code moves about in.
- `Words.dfy`, `Evr.dfy`, `EvrCard.dfy`, `EvrEffects.dfy`, `EvrDriver.dfy`: the card (`src/evr.c` and
  the subscription half of `src/evr-irq-events.c`). A 32-bit word is the set of its
  one bits, which `WordsAreNumbers` shows to be the same as a 32-bit number.
  `EvrCard` states each operation as a function on registers and shadow MAP RAM; the
  class `Card` in `EvrDriver` is the code, loop by loop, and every method is proved
  to compute its function. `EvrEffects` says, bit by bit, what these functions leave in
  the registers.
- `Rm.dfy`: the resource manager (`src/rm.c`) with the best-fit rule of `src/evr.c`.
- `Device.dfy`: one MNG_DEV with its VIRT_DEVs as a state machine over all the calls
  that reach it. `DeviceTable.dfy`, `DeviceOwners.dfy`, `DeviceHw.dfy`,
  `DeviceControl.dfy` and `DeviceVDevs.dfy` prove what holds in every run of it,
  `DeviceEffects.dfy` what each call does in every state that a run reaches, and
  `DeviceWitnesses.dfy` shows runs in which something fails; `MngDev.dfy` is the code
  of `src/mng-dev.c` in place, each call proved to make exactly one step of that
  machine, and `ReturnCodes.dfy` compares what it returns with what it does.
- `DevRef.dfy`, `Lifecycle.dfy`, `Unplug.dfy`: the device reference (`src/devref.h`),
  the opening, closing and unplugging that it serves, and both together with the
  device.
- `DirectAccess.dfy`, `VirtDev.dfy`, `Framing.dfy`, `Reading.dfy`: how a last close keeps
  readers out, `vdev_read`, the byte stream that it produces, and any number of
  readers of one VIRT_DEV among its interrupts (`src/virt-dev.c`).
- `Isr.dfy`, `IrqSources.dfy`, `EndToEnd.dfy`: the interrupt routine as the source of
  events, the interrupts that are asked for against the events that they bring, and
  the way of an event from there to a reader's buffer.
- `PciEvr.dfy`: the activity counter that guards the removal of a card
  (`src/pci-evr.c`).

What the driver gets from elsewhere is a parameter: whether the system grants an
interrupt, has memory for a list entry, or can make a device node; what the
registers of the card contain; what arrives while a reader sleeps. Memory is
sequentially consistent: the code has barriers where that matters. Sections that the
driver runs under one lock are single steps. So is a put or a get of the queue where
other things are the subject; that puts may run during a get is the subject of
`QueueInterleaving.dfy`.

## What the code does otherwise than it says

- `src/packet-queue.c:61-75`: when one place is left and an overflow marker is
  already pending, the head moves over a slot that was not written. The put reports
  success and the reader will find there what the slot held a turn before, or what
  the memory held at the start. `FifoExact` and `DeliveredExactly` say exactly when
  and what; `StalePutReachable` shows that it happens. The memory is not cleared, so
  that the length found there may be anything: `CopiesFitIff` says exactly when a get
  copies more than its buffer holds, `LongCopyReachable` shows that it can.
- `src/mng-dev.c:544-545`: a second open of a MNG_DEV is refused but keeps the
  reference it took, for good. `DestroyedUnlessRefused` says that this is the one
  thing that keeps an unplugged device from being destroyed, `RefusedOpenLeaks`
  shows such a run.
- `src/mng-dev.c:868`: a VIRT_DEV that is allocated more than 32 resources of one type
  owns them all but lists 32. `OwnershipAgreement` says that list and owner table
  agree exactly up to that number, `ListFallsBehind` shows a run beyond it.
- `src/evr.c:781`: MNG_DEV_EVR_IOC_INIT clears the event marks in the MAP RAM although
  events may be subscribed. `HardwareFollows` says that card and subscriptions
  agree exactly when this has not happened since the last change of subscriptions,
  `InitLosesMarks` shows that it happens.
- `src/evr.c:1011-1012`: the get of the pulse properties reads enable and polarity from
  all bits but their own. `PulsePropReadBack` says when the result is right all the
  same, `EnableReadsBackWrong` shows a case where it is not.
- `src/pci-evr.c:596-615`: an interrupt request that was refused is noted as done, and
  the interrupt is given back later. `BalancedIffGranted` says that this is the one
  thing that upsets the balance.
- `src/evr.c:300`: a comment gives 66 as the suitability of an exact match of all
  three properties; the code returns 99.

## Model

| member | source | states |
|---|---|---|
| PacketQueue.CircBuf.constructor | src/packet-queue.c:25-30 | the queue starts empty, with no marker pending, over whatever the memory held |
| PacketQueue.CircBuf.Put | src/packet-queue.c:32-88 | a put changes slot, head and marker flag as the free space and the length demand, and fails exactly when there is no place or the event is too long |
| PacketQueue.CircBuf.Get | src/packet-queue.c:90-118 | a get copies the oldest slot and moves the tail; the bytes it copies from the slot, and the length counted from the slot after the tail has moved |
| PacketQueue.CircBuf.Available | src/packet-queue.c:120-130 | there is something available exactly when a get would return bytes |
| QueueInterleaving.RunInv | src/packet-queue.c:32-118 | in every interleaving each published slot holds the content of its position in the write log, and the reader holds the content of its own |
| QueueInterleaving.Conservation | src/packet-queue.c:32-118 | in every interleaving accepted puts are completed gets plus the entries counted in the ring |
| QueueInterleaving.RingSafety | src/packet-queue.c:48-114 | the slot being written is never the slot being read, and the length read after the tail was published is that of the copy |
| QueueInterleaving.NoSilentLoss | src/packet-queue.c:48-87 | each event of legal length that is not stored comes with an overflow marker after the last stored event and before the next one |
| QueueInterleaving.MarkersSeparated | src/packet-queue.c:61-75 | between two overflow markers there is a stored event |
| QueueInterleaving.DeliveredExactly | src/packet-queue.c:90-118 | the i-th get copies and returns the i-th accepted put, byte for byte, or for a slot passed over what the slot held a turn before |
| QueueInterleaving.FifoExact | src/packet-queue.c:32-118 | without a slot passed over the reader gets the messages in order; a drained reader has got exactly the messages if and only if no slot was passed over |
| QueueInterleaving.StalePutReachable | src/packet-queue.c:61-79 | a slot is passed over after filling the queue, reading once and putting once more |
| QueueInterleaving.UninterruptedPut | src/packet-queue.c:32-88 | the steps of a put without interference are the put of the sequential queue |
| QueueInterleaving.UninterruptedGet | src/packet-queue.c:90-118 | the steps of a get without interference are the get of the sequential queue |
| QueueCopies.CopiesFitIff | src/packet-queue.c:99-115 | in every interleaving each get copies at most 14 bytes if and only if no completed get was of a slot passed over on the first turn that held a length above 12; that can only be position 1023 |
| QueueCopies.LongCopyReachable | src/packet-queue.c:25-30 | with such a length in the last slot of the memory, filling, reading once, putting once more and reading on makes a get copy that many bytes |
| Backlog.PutBacklog | src/packet-queue.c:48-87 | a put adds to the frames that can be read its event, an overflow marker, or what the slot holds that it passes over, and changes no other |
| Backlog.GetBacklog | src/packet-queue.c:99-115 | a get takes the first of the frames that can be read and leaves the others |
| EventList.EventBitmap.Clear | src/event-list.c:26-29 | no code is left |
| EventList.EventBitmap.IsEmpty | src/event-list.c:31-34 | a bitmap is empty exactly when no code is in it |
| EventList.EventBitmap.Test | src/event-list.c:36-42 | a code is found exactly when it is in the bitmap; codes out of range never are |
| EventList.EventBitmap.Add | src/event-list.c:44-51 | one code is added if it is in range, nothing else changes |
| EventList.EventBitmap.Remove | src/event-list.c:53-59 | one code is removed, nothing else changes |
| EventList.EventBitmap.ExtractOne | src/event-list.c:61-68 | the lowest code is returned, -1 for none |
| EventList.DispatchList.constructor | src/event-list.c:75-78 | the table starts with no subscriber |
| EventList.DispatchList.Add | src/event-list.c:80-102 | a subscriber is put behind the others unless it is there already, with the error codes for a bad event and a full row |
| EventList.DispatchList.Remove | src/event-list.c:104-125 | a subscriber is taken out of one row and the others move up, so that no gap is left |
| EventList.DispatchList.RemoveAllOf | src/event-list.c:127-135 | a subscriber is taken out of every row |
| EventList.DispatchList.AddSubscribedEvents | src/event-list.c:137-148 | the bitmap gains exactly the codes that have a subscriber |
| EventList.DispatchList.ForAllSubscribers | src/event-list.c:150-168 | every subscriber of the event is called once, in order of subscription |
| EventList.TableRefinesRelation | src/event-list.c:80-135 | the table keeps rows without duplicates and within bounds, and its operations add and remove exactly the pairs of event and subscriber they name |
| EventList.TableKeepsOrder | src/event-list.c:80-135 | the subscribers of a row stay in their order, and a new one stands behind them |
| EventList.RemoveRowAt | src/event-list.c:114-124 | taking out an entry is one move of the entries behind it |
| EventList.UnionIsSubscribed | src/event-list.c:137-148 | looking at the first place of a row tells whether the event has any subscriber |
| EventList.AddAlwaysFits | src/event-list.c:89-101 | with at most 31 live subscribers an add finds a place in its row |
| Evr.FlushWriteAddresses | src/evr.c:349-390 | a flush writes each word of the inactive bank once and CTRL last |
| Evr.FlushIsAtomic | src/evr.c:370-390 | until the write of CTRL the hardware sees the old MAP RAM, after it exactly the shadow |
| Evr.FlushFrame | src/evr.c:370-390 | a flush leaves every register below the MAP RAM except CTRL alone |
| EvrEffects.FlushKeepsCtrl | src/evr.c:383-388 | a flush inverts the bank bit of CTRL, leaves the MAP RAM enabled and every other bit of CTRL as it is |
| EvrDriver.Card.constructor | src/evr.c:431-573 | a new card works with the initial MAP RAM |
| EvrDriver.Card.SaveMapRam | src/evr.c:349-368 | the loop makes the 1024 writes in the order stated |
| EvrDriver.Card.RamMapChangeFlush | src/evr.c:370-390 | the shadow is written to the inactive bank and the banks are switched, with what Evr.FlushIsAtomic and EvrEffects.FlushKeepsCtrl say of it |
| EvrDriver.Card.RamMapInitialize | src/evr.c:392-407 | the shadow becomes the initial one and is flushed |
| EvrDriver.Card.Initialize | src/evr.c:746-792 | INIT clears every pulse generator and the MAP RAM and enables the outputs |
| EvrDriver.Card.Ioctl | src/evr.c:881-1209 | each setting call of a VIRT_DEV changes the card as its function says, or fails with the code stated and changes nothing |
| EvrDriver.Card.SetActionsInShadow | src/evr.c:1139-1206 | the loop over the codes sets and clears the bits of one pulse generator in the three action words |
| EvrDriver.Card.GetActionsFromShadow | src/evr.c:1139-1206 | the loop over the codes reads the bits of one pulse generator back |
| EvrDriver.Card.ReadPulseParams | src/evr.c:928-934 | the parameters are read from the registers they are set in |
| EvrDriver.Card.ReadPulseProps | src/evr.c:1007-1022 | the properties as the code reads them, with its inverted masks |
| EvrDriver.Card.InitResource | src/evr.c:1230-1268 | a pulse generator is made idle: its registers, and its actions for every code |
| EvrDriver.Card.SetIrq | src/pci-evr.c:567-619 | the bridge's enable bit follows the requests that are granted |
| EvrDriver.Card.SubscribeChange | src/evr-irq-events.c:200-313 | marks, data buffer control and interrupt enable are set for a set of subscribed codes |
| EvrCard.SubscribeSynchronises | src/evr-irq-events.c:231-312 | after a change of subscriptions the hardware saves exactly the subscribed codes and IRQEN asks for exactly the interrupts they need, from any state before |
| EvrCard.SubscribeKeepsBridgeBit | src/evr-irq-events.c:221-229 | the IRQEN bit of the bridge stays as the bridge set it |
| IrqSources.RefreshEnables | src/evr-irq-events.c:257-310 | after a change of subscriptions, from any state, each of the six sources is enabled exactly if the interrupt routine can bring a subscribed event for its flag alone, the master bit exactly if anything is subscribed, and no other bit but that of the bridge |
| EvrCard.InitKeepsSyncIff | src/evr.c:746-792 | INIT keeps the card in step with the subscriptions if and only if no event FIFO code is subscribed |
| EvrCard.PulseParamSetIsolated | src/evr.c:881-971 | setting pulse parameters concerns one pulse generator only |
| EvrCard.PulseParamRoundTrip | src/evr.c:924-958 | parameters read back as set if each fits its number of bits, and are all left alone otherwise |
| EvrEffects.TooLargeIsTooManyBits | src/evr.c:32-32 | a value is refused exactly if it needs more bits than the property has, which counts as one bit if it has none |
| EvrEffects.ParamSetEffect | src/evr.c:936-958 | values that have no more bits are at the addresses of the three parameters, and otherwise nothing has changed |
| EvrEffects.PropSetEffect | src/evr.c:1031-1063 | each property is in its bit of the control word and the other bits are as before |
| EvrCard.PulsePropReadBack | src/evr.c:1009-1063 | the action enables read back as set; enable and polarity read back right if and only if they equal whether any other bit is set |
| EvrCard.EnableReadsBackWrong | src/evr.c:1011-1011 | an idle pulse generator that is enabled and nothing else reads back as not enabled |
| EvrCard.PulsePropSetIsolated | src/evr.c:973-1068 | setting pulse properties concerns one pulse generator only |
| EvrCard.MapRamSetIsolated | src/evr.c:1070-1209 | setting actions concerns the bits of one pulse generator only, in shadow and hardware, and no internal function |
| EvrCard.InitResIsolated | src/evr.c:1230-1257 | making a pulse generator idle concerns that one only |
| EvrCard.CommandIsolated | src/evr.c:881-1209 | any call of a VIRT_DEV concerns at most the pulse generator that it names |
| EvrCard.MapRamRoundTrip | src/evr.c:1070-1209 | a get after a set returns what was set, reduced to the three action bits, and the hardware has it |
| EvrCard.MapRamSetsCommute | src/evr.c:1139-1206 | sets on different pulse generators can change places |
| EvrCard.PerEventFormAgrees | src/evr.c:1070-1209 | setting all codes one at a time is setting the whole map |
| EvrEffects.SetOneCode | src/evr.c:1139-1206 | in the bank that the hardware works with, each code named has exactly the actions asked for, and each other code those it had |
| EvrEffects.InitIdlesAll | src/evr.c:766-781 | INIT leaves every pulse generator with its registers 0 and no action for any code |
| EvrEffects.InitFunctions | src/evr.c:392-407 | INIT leaves the hardware with six internal functions, each at its event code and nowhere else |
| EvrEffects.InitOtherCtrl | src/evr.c:781-787 | INIT enables the outputs and leaves the other bits of CTRL but those of the banks |
| EvrEffects.RefreshDataBuffer | src/evr-irq-events.c:263-283 | a data buffer that was in step with the subscriptions before is in step after: loading while its event is subscribed and stopped without |
| EvrEffects.RefreshBridge | src/pci-evr.c:567-619 | a bridge is switched on when interrupts come to be needed and are granted, off when they stop being needed, and left otherwise |
| Rm.Init | src/rm.c:79-163 | a manager is made unless there are more than 16 types; all resources are free |
| Rm.ResourceManager.constructor | src/rm.c:100-162 | each resource gets the one place that its type and index determine |
| Rm.ResourceManager.Alloc | src/rm.c:170-262 | the loop seizes the resource that the rule determines, or returns its error, and changes no other owner |
| Rm.ResourceManager.Free | src/rm.c:264-277 | all resources of an owner become free and no others |
| Rm.ResourceManager.CountForType | src/rm.c:279-287 | the number of resources of a type, an error for an unknown type |
| Rm.ResourceManager.OwnerOf | src/rm.c:289-311 | the owner found by index is the one that a search of the whole table finds |
| Rm.SuitabilityIsSurplus | src/evr.c:248-302 | a pulse generator suits exactly when all three widths suffice by no more than 32 bits each, and the better the fewer bits are wasted |
| Rm.MeetsIsEnoughBits | src/evr.c:248-302 | for requests of 0 or more and widths up to 32 that is just having enough bits |
| Rm.PoolTakesBestFit | src/rm.c:191-249 | allocation from the pool takes the first free pulse generator of least total surplus, and fails exactly when no free one meets the request |
| Rm.FixedTakesTheOne | src/rm.c:210-249 | allocation by index takes the one resource of that name and index if it is free, and tells one in use from one that does not exist |
| Rm.LookupAgreesWithScan | src/rm.c:289-311 | look-up by type and index agrees with the linear search for all types and indices |
| Rm.AllocOwners | src/rm.c:170-262 | an allocation takes a free resource of the name asked for, and of the index if one was given, and changes the owner of that one only |
| Rm.FreeOwnerOwners | src/rm.c:264-277 | freeing an owner changes the look-up of exactly its resources |
| Device.StepShape | src/mng-dev.c:449-472 | every call keeps the owner table complete and the listed resources in range |
| EvrEffects.CreatedReady | src/mng-dev.c:1674-1679 | whatever was in its registers, a new device starts in step with no subscriptions, its MAP RAM enabled and its data buffer stopped |
| DeviceTable.AddNeverFull | src/event-list.c:80-102 | in a reachable state a subscription to a code in range always finds a place |
| DeviceTable.StepSubscribed | src/mng-dev.c:1483-1513 | which calls begin and end which subscriptions |
| DeviceTable.StepOrder | src/event-list.c:80-135 | of two subscribers of an event the one that was subscribed first stands first, after any call |
| DeviceTable.RunTableInv | src/mng-dev.c:409-422 | in every run the table is well formed and holds open VIRT_DEVs only |
| DeviceTable.IntervalIsSubscribed | src/mng-dev.c:1388-1421 | the table tells exactly who is within a subscription interval |
| DeviceTable.ExactlyOnce | src/mng-dev.c:981-1018 | over any run each VIRT_DEV is handed exactly the interrupt events of its subscription intervals, each once and in order |
| DeviceOwners.OwnershipAgreement | src/mng-dev.c:449-472 | in every run owners are live VIRT_DEVs, lists are distinct and owned, and a list is all that is owned if and only if that is at most 32 |
| DeviceOwners.ListsDisjoint | src/mng-dev.c:808-873 | no resource is in the lists of two VIRT_DEVs |
| DeviceOwners.ListedIsOwned | src/mng-dev.c:449-472 | a number that a VIRT_DEV may use leads to a resource it owns, in every run |
| DeviceWitnesses.ListFallsBehind | src/mng-dev.c:464-465 | on a card with more than 32 outputs a run gives one VIRT_DEV 33 of them, of which it lists 32 |
| DeviceHw.HardwareFollows | src/mng-dev.c:308-344 | in every run the hardware works with the shadow at each operation boundary, IRQEN is what the subscriptions need, and the hardware saves exactly the subscribed codes if and only if INIT has not cleared marks since the last refresh |
| IrqSources.SourcesFollowSubscribers | src/evr-irq-events.c:257-310 | in every run, while the device is there, a source is enabled exactly if an event that its interrupts can bring has a subscriber |
| DeviceControl.CtrlOverRuns | src/evr.c:383-388 | in every run CTRL is as at the start but for the bank in use and the outputs, which are on exactly if they were or an INIT has run; the MAP RAM stays enabled |
| DeviceControl.CtrlBitsStay | src/evr.c:384-388 | a bit of CTRL once set, such as that of the outputs, stays set through any calls |
| DeviceControl.FunctionsOverRuns | src/evr-irq-events.c:231-255 | in every run the hardware does each internal function at its event code and nowhere else |
| DeviceControl.ControlOverRuns | src/evr-irq-events.c:263-283 | in every run, while the device is there, the data buffer is loading if its event has a subscriber and else stopped, and interrupts are asked for exactly if any event has |
| DeviceControl.BridgeOverRuns | src/pci-evr.c:567-619 | in every run, while the device is there, a bridge that was off at the start is on exactly if an event has a subscriber and the latest request was granted |
| DeviceWitnesses.InitLosesMarks | src/evr.c:746-792 | a run that subscribes an event and then calls INIT, after which the card does not save the event |
| DeviceHw.IoctlIsolated | src/mng-dev.c:1430-1463 | in every run a call through a VIRT_DEV leaves each pulse generator that it does not own, all internal functions and the rest of the device as they are |
| DeviceHw.PulsesArePrivate | src/mng-dev.c:1430-1463 | through any further calls that do not concern its owner a pulse generator stays as it is in registers, shadow and hardware, and stays owned |
| DeviceEffects.MayUseIff | src/mng-dev.c:474-495 | in every run a VIRT_DEV may use exactly the numbers that are places in its lists |
| DeviceEffects.IoctlTakesEffect | src/mng-dev.c:1430-1463 | in every run a call for number k does to the pulse generator in place k of the list, in its registers and in the active MAP RAM, what it asks for, and nothing else; any other call changes nothing |
| DeviceEffects.InitRunsIff | src/mng-dev.c:631-668 | INIT runs exactly if the VIRT_DEV in its header is closed and has the resources there in its lists |
| DeviceEffects.InitTakesEffect | src/evr.c:746-792 | an INIT that runs leaves every pulse generator idle and the outputs enabled, and changes the card only; one that does not changes nothing |
| DeviceEffects.DestroyDestroys | src/mng-dev.c:409-422 | in every run the destruction of a closed VIRT_DEV takes away its entry and its subscriptions and frees what it owned, and leaves entry, ownership and subscriptions of every other |
| DeviceEffects.DestroyedIsFree | src/mng-dev.c:815-824 | after that, an allocation by index gives each resource that it owned to another VIRT_DEV |
| DeviceEffects.AllocByIndex | src/mng-dev.c:829-873 | in every run an allocation by index gives a closed VIRT_DEV that resource if nobody owns it, at the end of its list, and otherwise changes nothing |
| DeviceEffects.AllocFromPool | src/mng-dev.c:858-869 | in every run an allocation from the pool gives it the free pulse generator that wastes fewest of the bits asked for, the first of several, and changes nothing if none suits |
| DeviceEffects.NothingToAllocate | src/rm.c:191-249 | outputs are not allocated from the pool and nothing by another name |
| DeviceEffects.HwResetIdles | src/virt-dev.c:706-712 | in every run a reset leaves each listed pulse generator idle and each other one as it is |
| DeviceVDevs.RunNames | src/mng-dev.c:745-752 | in every run no two VIRT_DEVs of a device have the same name |
| DeviceVDevs.CreateGivesFreshVDev | src/mng-dev.c:740-801 | exactly when a creation succeeds; the new VIRT_DEV has a free id, is closed, owns nothing and is subscribed to nothing |
| DeviceVDevs.UsageIsOpenFiles | src/mng-dev.c:1328-1404 | in every run the usage counter, with the open that is on its way to be counted, is the number of files opened and not closed, also when an open straddles the unplug |
| DeviceVDevs.LastCloseIdles | src/mng-dev.c:1406-1418 | the last close leaves each listed pulse generator idle, in its registers and for every event code, or untouched if it is to be left |
| DeviceEffects.LeaveIsLastSet | src/virt-dev.c:713-723 | in every run the flag for the last close is the one set last since the VIRT_DEV was created, and not set at first |
| DeviceVDevs.LiveUntilUnplugged | src/mng-dev.c:1710-1719 | in every run the device is there exactly until it is unplugged |
| DeviceVDevs.UntouchedOnceGone | src/mng-dev.c:308-332 | once it is unplugged no call touches the card, the owners or the VIRT_DEVs but for counting files, and no event is handed on |
| MngDev.MngDevice.constructor | src/mng-dev.c:1603-1682 | a created device is a start state of the device model |
| MngDev.MngDevice.OnSubscriptionsChanged | src/mng-dev.c:308-332 | the card is refreshed for the union of all subscriptions, while it is there |
| MngDev.MngDevice.RemoveAllSubscriptions | src/mng-dev.c:334-344 | all subscriptions of one VIRT_DEV are removed and the card is refreshed |
| MngDev.MngDevice.Create | src/mng-dev.c:727-806 | a VIRT_DEV is created with the id asked for or the first free one; which error is returned when |
| MngDev.MngDevice.Destroy | src/mng-dev.c:808-827 | a closed VIRT_DEV goes with its subscriptions, its resources and its list entry |
| MngDev.MngDevice.Allocate | src/mng-dev.c:829-873 | an allocation changes owner table and list together; which error is returned when |
| MngDev.MngDevice.AddResource | src/mng-dev.c:449-472 | the list grows by the resource unless it holds 32 already |
| MngDev.MngDevice.CheckResource | src/mng-dev.c:1441-1451 | a resource that a call names is passed on exactly if the VIRT_DEV lists and owns it |
| MngDev.MngDevice.InitializeCard | src/mng-dev.c:607-701 | INIT runs unless the VIRT_DEV in its header is open or may not use a resource named there |
| MngDev.MngDevice.Invalidate | src/mng-dev.c:1710-1719 | the device counts as gone from then on |
| MngDev.MngDevice.OnOpen | src/mng-dev.c:1328-1337 | the open takes its reference, or is refused when the device is gone |
| MngDev.MngDevice.CountOpen | src/mng-dev.c:1339-1345 | the open is counted, whether or not the device is still there |
| MngDev.MngDevice.OnClose | src/mng-dev.c:1388-1421 | the last close makes resources idle if it should and may, and ends all subscriptions |
| MngDev.MngDevice.InitResources | src/mng-dev.c:1348-1370 | every listed resource is made idle |
| MngDev.MngDevice.HwReset | src/virt-dev.c:698-713 | writing hw_reset makes every listed resource idle |
| MngDev.MngDevice.SetLeave | src/virt-dev.c:713-724 | whether the last close is to leave the resources as they are |
| MngDev.MngDevice.Subscribe | src/mng-dev.c:1483-1513 | a subscription is added or removed and the card refreshed; an add that fails returns its error and changes nothing; an unknown action refreshes only |
| MngDev.MngDevice.Ioctl | src/mng-dev.c:1430-1463 | only a resource that the VIRT_DEV lists and owns is ever passed to the card |
| MngDev.MngDevice.ProcessEvent | src/mng-dev.c:994-1018 | an event is handed to its subscribers at that moment, in order |
| ReturnCodes.CreateTells | src/mng-dev.c:727-806 | a creation reports success exactly if there is a new VIRT_DEV |
| ReturnCodes.AllocTells | src/mng-dev.c:829-873 | an allocation reports success exactly if it gives something, and a resource in use exactly if the one named has an owner |
| ReturnCodes.IoctlTells | src/mng-dev.c:1430-1463 | a call is refused as not allowed exactly if its number is in no list, and succeeds exactly for pulse generators and values that fit |
| ReturnCodes.SubscribeTells | src/mng-dev.c:1483-1513 | a subscription succeeds unless the device is gone or the code is out of range |
| DevRef.DeviceReference.constructor | src/devref.h:102-109 | a reference starts valid and held by its creator |
| DevRef.DeviceReference.Get | src/devref.h:144-179 | count and list grow together or not at all; on success, and only then, the reference is left locked |
| DevRef.DeviceReference.Put | src/devref.h:212-234 | count and list shrink together; an entry that reaches 0 is removed; the reference is unlocked on every way out |
| DevRef.DeviceReference.Invalidate | src/devref.h:240-244 | the pointer is withdrawn and nothing else |
| DevRef.AddInodeLists | src/devref.h:157-177 | the list keeps one entry for each inode, counting its holds, when a hold is added |
| DevRef.DropInodeLists | src/devref.h:217-230 | the same when a hold is dropped, and an inode that holds is always found |
| DevRef.ListsTotal | src/devref.h:80-91 | the counts in the list add up to the number of holds |
| Lifecycle.ReferenceConservation | src/mng-dev.c:499-573 | in every run the count is the creator's hold plus open files, opens under way and refused opens; the list accounts for each of them; no put misses its inode |
| Lifecycle.NothingAfterDestroy | src/mng-dev.c:189-232 | a device is destroyed once at most, after its removal, with no file open, and nothing touches it afterwards |
| Lifecycle.DestroyedByLastPut | src/mng-dev.c:189-229 | a device is destroyed exactly by the put that takes the count from 1 to 0 |
| Lifecycle.OnlyFallsOnceWithdrawn | src/devref.h:151-155 | once the reference is withdrawn the count never grows and no open begins |
| Lifecycle.DestroyedUnlessRefused | src/mng-dev.c:540-550 | after removal and all closes the device is destroyed if and only if no open was refused as busy |
| Lifecycle.RefusedForGood | src/mng-dev.c:542-550 | an open is refused only while another file has the MNG_DEV open, and each refusal leaves one hold behind |
| Lifecycle.RefusedOpenLeaks | src/mng-dev.c:542-550 | a run with one refused open, every file closed and the removal finished, in which the device is not destroyed |
| Unplug.UsageIsFiles | src/mng-dev.c:1328-1428 | in every run of device and reference together the usage counters count exactly the files of VIRT_DEVs that hold the reference, and a destroyed device has none |
| DirectAccess.CountIsInside | src/virt-dev.c:199-227 | for any number of threads the count is the number of threads inside |
| DirectAccess.DrainIsFinal | src/mng-dev.c:203-217 | once entry is denied threads only leave; after the closer's wait nobody is inside or will be |
| DirectAccess.WaitEndsIffEmpty | src/mng-dev.c:212-217 | the closer's wait ends exactly when nobody is inside |
| VirtDev.VirtualDevice.constructor | src/virt-dev.c:91-102 | a VIRT_DEV starts with nothing to read and nobody inside |
| VirtDev.VirtualDevice.Notify | src/virt-dev.c:649-656 | the code is added to the notified ones |
| VirtDev.VirtualDevice.PutCb | src/virt-dev.c:659-680 | the event goes to the queue by the rules of the queue |
| VirtDev.VirtualDevice.ReadHasData | src/virt-dev.c:378-399 | there is data exactly when a code is notified or the queue is not empty |
| VirtDev.VirtualDevice.TakeNotified | src/virt-dev.c:411-427 | the lowest notified code is taken, or none |
| VirtDev.VirtualDevice.TakeQueued | src/virt-dev.c:429-434 | the oldest entry of the queue is taken, or none |
| VirtDev.VirtualDevice.ReadGet | src/virt-dev.c:406-435 | a notified code, else the oldest entry of the queue, with what arrives before each of the two looks |
| VirtDev.VirtualDevice.Read | src/virt-dev.c:438-537 | the loop, with what arrives before each of its looks and during its sleeps, makes the steps of a reader, has copied their frames one after the other, and gives back the place taken on entry on every way out and for the time of a sleep |
| VirtDev.WholeFramesOnly | src/virt-dev.c:455-530 | for every such schedule a read returns whole frames only, as many bytes as it says, never none and never more than the buffer |
| VirtDev.StopsWhenNothingFound | src/virt-dev.c:463-480 | a read that returns with room for a frame has found no notified code at its last look for one and then the queue empty |
| VirtDev.ReturnReasons | src/virt-dev.c:451-505 | for every schedule only a read that may sleep sleeps, and each error has its reason: a short buffer, nothing found without sleeping, a signal during a sleep, entry denied after one |
| VirtDev.DataIsFound | src/virt-dev.c:378-435 | there is data exactly if one of the two looks of a reader finds something |
| Framing.DecodeConcat | src/virt-dev.c:517-526 | decoding a byte stream of hardware frames gives back the frames |
| Framing.UniqueFraming | src/linux-evrma.h:352-408 | a byte stream can be cut into hardware frames in one way only |
| Framing.ArriveFramed | src/packet-queue.c:50-75 | hardware events keep a queue decodable if and only if no put passes over a slot with something else in it |
| Framing.TakenFramed | src/virt-dev.c:406-435 | what a reader takes from such a queue is a hardware frame that tells by its event whether it was notified or queued |
| Reading.ReadIsSteps | src/virt-dev.c:438-537 | a read among arrivals is so many steps of one reader of the VIRT_DEV |
| Reading.ReadDelivers | src/virt-dev.c:463-528 | for every schedule the frames of a read are, in order, what it took, and taken and left entries are those there before and those added, in order |
| Reading.ReadDecodes | src/virt-dev.c:438-537 | for every schedule of hardware events the bytes of a read decode to exactly the frames taken for it and it is not overrun |
| Reading.StreamDecodes | src/virt-dev.c:517-526 | all bytes that the readers of a VIRT_DEV got decode to exactly what they took |
| Isr.Isr | src/evr-irq-events.c:57-198 | the data buffer event, then the FIFO events until the flag clears or 256 are read, then the four notes, each for its flag |
| Isr.IsrIsHardware | src/evr-irq-events.c:132-195 | all events of an interrupt have the form that makes the byte stream decodable |
| Isr.FifoEventMeaning | src/evr-irq-events.c:139-176 | a FIFO event has the low eight bits read for its code, and seconds and time stamp in this order in its data, low byte first |
| Isr.QueuedFollowFlags | src/evr-irq-events.c:78-176 | the data buffer event comes first if it is flagged, then one event for each read of a flagged FIFO up to the first that finds no more or the 256th |
| Isr.NotesFollowFlags | src/evr-irq-events.c:178-195 | these come before all else, and an event is noted exactly if its flag is set |
| EndToEnd.NothingIsLost | src/virt-dev.c:406-435 | in every run, with any number of readers, what was taken out of the queue of a VIRT_DEV with what is in it is what the puts since its creation put in, and each reader has what it took |
| EndToEnd.InterruptsReachTheReaders | src/mng-dev.c:978-1018 | in every run in which no put met a full queue, what readers took out of it with what is in it is exactly the interrupt events of the subscription intervals since the creation of the VIRT_DEV, each once, in order and unchanged, and so are the decoded bytes of all reads |
| EndToEnd.NotesReachTheReaders | src/virt-dev.c:649-656 | in every run a code is there to be read exactly if the VIRT_DEV is owed a note of it since the code was taken last, and each taking of a code has such a note before it: none is lost, none invented, and notes that come together are read once |
| EndToEnd.TakingsAreDated | src/virt-dev.c:411-427 | the place of a taking among the events owed is where it happened |
| EndToEnd.OwedIsHardware | src/evr-irq-events.c:132-195 | what the interrupt routine produces meets the condition for decoding |
| PciEvr.CounterIsActivity | src/pci-evr.c:543-564 | with any number of interrupt routines the counter is 2 for a card in use plus the routines in flight |
| PciEvr.RemovalIsSafe | src/pci-evr.c:953-996 | with one routine at a time no routine is past its check when the card is cleaned up or later, and interrupts are switched only while the card is in use |
| PciEvr.WaitEndsIffQuiet | src/pci-evr.c:986-992 | the wait of the removal ends exactly when no routine is in flight |
| PciEvr.BalancedIffGranted | src/pci-evr.c:577-618 | the interrupt is held exactly as wanted, and given back at the end, if and only if no request was refused |
| PciEvr.RefusedThenFreed | src/pci-evr.c:596-615 | after a refused request the removal gives back an interrupt that is not held |
| PciEvr.TwoRoutinesDefeatTheCheck | src/pci-evr.c:579-579 | with two routines in flight interrupts could be switched during the removal |
| PciEvr.PciCard.FinishProbe | src/pci-evr.c:698-707 | a card comes into use with 2 in its counter |
| PciEvr.PciCard.Isr | src/pci-evr.c:543-564 | the body of the routine runs exactly when the counter was not 0, and the counter is as before |
| PciEvr.PciCard.IrqSet | src/pci-evr.c:567-619 | interrupts are requested or given back on a change only, and only while the card is in use |
| PciEvr.PciCard.BeginRemove | src/pci-evr.c:962-984 | the removal takes its 2 and gives back the interrupt |

## Left out

- Kernel plumbing: cdev, class, sysfs, mmap, copy_to_user and its faults, access_ok, poll, wake-ups and version switches; kmalloc failures other than that of a new list entry in devref_get.
- Weak memory ordering: sequential consistency is assumed where the code has barriers.
- Liveness and deadlock freedom: nothing is said about the order in which locks are taken.
- The simulator (`src/evr-sim.c`), the text printers (`src/evr-dbg.c` and the dbg functions) and the DBG_MEASURE_TIME_FROM_IRQ_TO_USER build.
- The 16-bit output mapping registers, OUTSET and the rest of the MNG_DEV calls for outputs: plain register transfer.
- The registers of PLX bridges, PCI probing, and cards that are attached through another driver.
- The data buffer copy, the temperature and time stamp reads, and what the interrupt routine writes to registers: the reset of the event FIFO after it was full and the start of the next load of the data buffer.
- A change of CTRL by the interrupt routine or a direct call during a flush: each register sequence is one step and CTRL is plain memory.
- devref_forall_inodes, app_kill, and probing the same slot again while an old MNG_DEV is held open.
- The per-event counters that only sysfs shows.
- The VIRT_DEV list is a map from id to VIRT_DEV, so the order of the list in memory is not captured; only look-ups by id and by name use it.
- MngDev.MngDevice.Destroy: stated for a VIRT_DEV that nobody has open or is about to open, because the code does not look at the usage counter and a user must not destroy an open one.
- MngDev.MngDevice.Ioctl: stated for calls that name a resource type, because without one the code passes on a descriptor that was never set.
- EvrDriver.Card.SetIrq: does not model the requests to the system and the check of the activity counter, which are those of PciEvr; here only the registers of the card are.
- EvrDriver.Card.Initialize: does not model the loop that forces the 16-bit output mapping registers low.
- EndToEnd.InterruptsReachTheReaders: the equality with what is owed is stated for queues that have never been full; what any other queue holds is stated by EndToEnd.NothingIsLost and, put by put, by QueueInterleaving.
- VirtDev.VirtualDevice.Read: what happens after a copy that has run past its buffer is not defined and not modelled; QueueCopies.CopiesFitIff says when there is one.
- PciEvr.RemovalIsSafe: stated for one interrupt routine of a card at a time, which the kernel ensures for one interrupt line; TwoRoutinesDefeatTheCheck shows why it is needed.
