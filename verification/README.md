# A verified model of nusb's protocols

nusb gives a program access to USB devices. Most of it hands calls to the operating system, but four
parts have logic of their own, and this project models those four and proves what they are for.

1. **Who owns a transfer.** A transfer is one heap box shared by the user's handle, a completion
   handler on another thread and the kernel. `TransferProtocol` is a transition system with one step
   per atomic action of one party; a panic, a double free or an access to freed memory sets `fault`,
   and the main result is that no interleaving reaches one. `Wakeup` puts any number of such boxes
   behind one `Notify`, `Exclusivity` counts the references that keep an endpoint's bit set, and
   `LinuxTimeouts` adds the timeout map, its lock, and addresses that are used again. `TimeoutQueue`
   is the map and its expiry loop as code.
2. **Streams over transfers.** `Writer` and `Reader` are the buffered adapters as classes over
   `Endpoints.Endpoint`, the queue of an endpoint, whose other party, the kernel, is read from scripts:
   a statement for all scripts is one for everything the kernel may do, and how each submission ended
   is recorded under its number; whether a completion wakes the waiting thread is in the script too. `Buffers`
   is a buffer's trip through a URB. `Framing` is the bus: data bytes and message ends (tokens), which are the same before
   and after any cutting into transfers and packets. `RoundTrip` joins both ends, and `Callers`
   runs them.
3. **Windows.** `WindowsHandles` is the sharing of file handles between interfaces, with the 256-bit
   set of `BitSets`; `WindowsTimeouts` is the race of submitter, timer callback and IO callback.
4. **Descriptors.** `Descriptors` is the parser as its cursor loops and as functions, for all bytes;
   `DescriptorLayout` lays trees out as section 9.4.3 of the USB 2.0 specification says and reads
   them back.

`Runs` says what a run of a transition system is. Beside what no run can do, each transition system
shows what its parties can do from any state: submit, time out, complete, be freed and be used again
(the lemmas whose names begin with `Can`). Code that changes state step by step is a class or a method
here, proved against a function or a step of a transition system about which the theorems are; parsing
and arithmetic are functions.

## What was found

These are places where the code does less than its comments or names say; each is stated exactly.

- `notify_completion` takes the waker before it swaps the state. A waiter that registers and checks
  between the two, while no other handler holds its waker, is not woken: `Wakeup.WakeupCanBeLost` is
  such a run, and `Wakeup.WokenUnlessLost` says, after any run, that a sleeper is woken if and only if
  it was not in that position when it checked (`Wakeup.Lost`).
- `update_timeouts` writes a zero time to the timer when the earliest deadline is the very instant it
  was called with, and a zero time disarms a timerfd. `TimeoutQueue.Timeouts.UpdateTimeouts`
  and `OnlyZeroTimeoutIsNotArmed` say when: a lone control transfer with a zero timeout is not cancelled.
- `EndpointWrite::submit` in the middle of a message sends a short packet, which ends the message for
  the receiver, exactly when the buffer is not a whole number of packets:
  `RoundTrip.SubmitKeepsFraming`.
- Once a transfer has failed with an error other than a cancellation, `EndpointRead` reports that
  error on every later read, and `set_num_transfers` does not resume it. `Callers.StalledReader` is a
  run in which that happens; by `Callers.ReadAgain` the reader uses its buffer again, when there is
  room, if and only if the last completion has no such error; and `Callers.ReadOnAfterError` is about
  all later reads.
- `BufRead::consume` of the until-short-packet view tests for data the wrong way round. It is meant to
  mark bytes that `fill_buf` returned as read; it panics for every number of bytes but zero, and never
  marks any: `Reader.EndpointReadUntilShortPacket.Consume`. `Read` does not use it and is not affected.
- The documentation of `EndpointWrite::set_num_transfers` speaks of waiting when more than that many
  transfers are pending; the code waits if and only if it has no buffer and as many or more are
  pending: `Writer.EndpointWrite.Write`. The model follows the code.

## Model

| member | source | states |
|---|---|---|
| TransferProtocol.NextKeepsInv | src/transfer/internal.rs:154-274 | every atomic step of every party, enabled only by that party's program order, keeps the ownership invariant |
| TransferProtocol.RunKeepsInv | src/transfer/internal.rs:154-274 | the ownership invariant holds after every interleaving from a new transfer |
| TransferProtocol.EveryInterleavingIsSafe | src/transfer/internal.rs:185-274 | in every interleaving of user and handler steps, swaps and frees apart, there is no panic and no access after free; a box is freed at most once; when the user has dropped it and no completion is outstanding, it has been freed, or exactly one party is about to and can; a user with mutable access shares it with nobody |
| TransferProtocol.CanBeFreed | src/transfer/internal.rs:221-274 | no box is stuck: from every state that a run can reach, the parties' own steps lead to its one free |
| TransferProtocol.CompletedIsReusable | src/transfer/internal.rs:154-274 | submitting, completing and taking back leaves the box exactly as it was, whatever waker was found |
| TransferProtocol.RefusedIsReusable | src/platform/linux_usbfs/device.rs:786-799 | the same when the submit call fails and the submitter completes the transfer itself |
| TransferProtocol.SimulatedIsReusable | src/transfer/internal.rs:163-166 | the same when the submission is only simulated |
| TransferProtocol.TransferInner.PreSubmit | src/transfer/internal.rs:154-160 | the idle assertion holds, and the method is the submit step of the transition system |
| TransferProtocol.TransferInner.IsComplete | src/transfer/internal.rs:212-218 | complete exactly when no completion is outstanding; the panic is unreachable |
| TransferProtocol.TransferInner.DropPending | src/transfer/internal.rs:245-259 | the dropping side is to free the box exactly when the completion is over; otherwise it is marked abandoned |
| TransferProtocol.TransferInner.SwapIdle | src/transfer/internal.rs:262-274 | the handler wakes the user exactly when the user still holds the transfer, and is to free it otherwise |
| Wakeup.NextKeepsInv | src/transfer/internal.rs:56-89 | every step but the check of a lost waiter keeps a waiter's waker in the hand of a handler that will fire it, or in the slot before the head's handler, with any number of transfers behind the slot |
| Wakeup.SleeperIsWoken | src/transfer/internal.rs:56-89 | in every run in which no lost waiter goes to sleep, once the head has completed and handlers are done the sleeper has been woken |
| Wakeup.QueueIsSafe | src/transfer/internal.rs:228-243 | without that hypothesis, still no fault and no freed transfer in the queue |
| Wakeup.CanBeDropped | src/transfer/internal.rs:245-259 | from every state that a run can reach, the waiter can give up and drop all its pending handles in order |
| Wakeup.TakenOnce | src/transfer/internal.rs:86-89 | a handler that takes the waker takes it away from all others: until the next registration they find none |
| Wakeup.NotWokenUnfired | src/transfer/internal.rs:262-274 | a waiter is woken only by a handler that fires the waker it registered last |
| Wakeup.CheckDecides | src/transfer/internal.rs:60-84 | a check breaks that coverage if and only if the waiter is lost: it registered after the head's handler had passed the slot, that handler has not swapped, and no other handler has or holds its waker |
| Wakeup.LostIsInSlot | src/transfer/internal.rs:262-274 | a waker is lost exactly when it is the one in the slot that the head's handler has passed |
| Wakeup.RegisteredIsCovered | src/transfer/internal.rs:60-84 | after any run, also one in which earlier waiters were lost, a waiter that has just registered is covered again |
| Wakeup.WokenUnlessLost | src/transfer/internal.rs:262-274 | after any run: a registered waiter checks and sleeps; whatever the others then do in any order before a further handler reaches the slot, once the head is complete and handlers are done, the sleeper has been woken if and only if it was not lost |
| Wakeup.LostSleepsOn | src/transfer/internal.rs:262-274 | a lost waiter is not woken before a further handler reaches the slot |
| Wakeup.WakeupCanBeLost | src/transfer/internal.rs:262-274 | a concrete run in which the wake-up is lost |
| BitSets.SlotIsNumberAndDirection | src/bitset.rs:6-9 | two addresses share a slot exactly when they agree in endpoint number and direction |
| BitSets.AddressMaskAdds | src/bitset.rs:19-21 | setting an address adds its slot to the set of slots and changes no other |
| BitSets.AddressMaskRemoves | src/bitset.rs:23-25 | clearing an address removes its slot and changes no other |
| BitSets.EndpointBitSet.IsSet | src/bitset.rs:11-13 | the bit test is membership of the address's slot |
| BitSets.EndpointBitSet.IsEmpty | src/bitset.rs:15-17 | the word is zero exactly when no slot is set |
| BitSets.EndpointBitSet.Set | src/bitset.rs:19-21 | in place: the slot is added |
| BitSets.EndpointBitSet.Clear | src/bitset.rs:23-25 | in place: the slot is removed |
| BitSets.Changes256 | src/platform/windows_winusb/device.rs:241-264 | setting and clearing one of 256 bits over four words changes that bit and no other |
| BitSets.EmptyIsZero256 | src/platform/windows_winusb/device.rs:253-255 | all words are zero exactly when no bit is set |
| Exclusivity.NextKeepsInv | src/platform/linux_usbfs/device.rs:663-722 | opening, closing, clearing a bit, alternate settings and any step on any box keep: strong count is open handle plus unfreed boxes, a bit is set exactly for one endpoint that holds it, and a referenced endpoint holds its bit |
| Exclusivity.BusyExactlyWhileInUse | src/platform/linux_usbfs/device.rs:695-722 | after any run, opening an address is refused exactly while a handle or an unfreed transfer, abandoned ones included, refers to an endpoint of its slot, or its drop is between the last release and the bit |
| Exclusivity.AltSettingNeedsQuiet | src/platform/linux_usbfs/device.rs:663-693 | after any run, the alternate setting changes exactly when the kernel accepts it and no endpoint is in use in that sense |
| Exclusivity.CanBeAbandoned | src/platform/linux_usbfs/device.rs:695-722 | an endpoint that is not busy can be opened and its handle dropped with a transfer in the kernel; the slot is still busy then |
| Exclusivity.CanBeOpenedAgain | src/platform/linux_usbfs/device.rs:863-868 | when that abandoned transfer completes, its own free and the drop of the last reference make the slot free again |
| Exclusivity.LinuxInterface.OpenEndpoint | src/platform/linux_usbfs/device.rs:695-722 | the method on the real word is the open step |
| Exclusivity.LinuxInterface.SetAltSetting | src/platform/linux_usbfs/device.rs:663-693 | the method is the alternate-setting step; busy exactly when some slot is set, successful exactly when none is and the kernel accepts, and the setting changes only then |
| Exclusivity.LinuxInterface.DropInner | src/platform/linux_usbfs/device.rs:863-868 | the drop of an endpoint whose last reference is gone is the clearing step |
| LinuxTimeouts.NextKeepsInv | src/platform/linux_usbfs/device.rs:215-288 | every step of submitters, reapers, timer handlers and users keeps the map invariant, also when addresses are allocated again |
| LinuxTimeouts.EntriesAreInFlight | src/platform/linux_usbfs/device.rs:215-288 | after any run, every map entry and the URB about to be discarded is allocated and kernel-owned or reaped and not notified, so no freed URB is discarded |
| LinuxTimeouts.TimedIsListed | src/platform/linux_usbfs/device.rs:506-530 | the other direction, after any run: a transfer in flight whose submitter has let go of the lock is in the map with its own deadline, or in the timer handler's hand, or has been discarded, and none is discarded before its deadline |
| LinuxTimeouts.DueAreDiscarded | src/platform/linux_usbfs/device.rs:265-288 | after any run, when the timer handler lets go of the lock, every transfer in flight that was due has been passed to the kernel to be discarded |
| LinuxTimeouts.CanBeSubmitted | src/platform/linux_usbfs/device.rs:506-530 | from any state with the lock free a held transfer can be submitted, is then with the kernel, and its entry has been added to the map |
| LinuxTimeouts.CanBeRefused | src/platform/linux_usbfs/device.rs:506-530 | when the submit call fails, the submitter completes the transfer under the lock that it holds, there is no entry for it, and the lock is let go |
| LinuxTimeouts.CanTimeOut | src/platform/linux_usbfs/device.rs:265-288 | a transfer with an entry is discarded when the timer handler runs at its deadline or later |
| LinuxTimeouts.CanComplete | src/platform/linux_usbfs/device.rs:215-256 | a transfer in the kernel, discarded or not, can complete whenever the lock is free; its entry is gone, and its user is told or its box is about to be freed |
| LinuxTimeouts.CompleteOnlyWhenRefused | src/platform/linux_usbfs/device.rs:506-530 | when the submitter tests for completion under the lock, it finds one exactly when the submit call failed |
| LinuxTimeouts.HolderCanMove | src/platform/linux_usbfs/device.rs:506-530 | whoever holds the map's lock has a step of its own to make |
| LinuxTimeouts.HolderGetsNearer | src/platform/linux_usbfs/device.rs:506-530 | each step of the holder lowers a measure of what it has left to do, and no step of anybody else raises it |
| LinuxTimeouts.LockIsLetGo | src/platform/linux_usbfs/device.rs:265-288 | so the lock is let go by the holder's own steps, in no more than the measure says, the expiry loop included |
| TimeoutQueue.FirstExists | src/platform/linux_usbfs/device.rs:265-321 | a non-empty map has an entry that is first by deadline and address |
| TimeoutQueue.OnlyZeroTimeoutIsNotArmed | src/platform/linux_usbfs/device.rs:290-321 | a lone entry is not armed exactly when its timeout is zero |
| TimeoutQueue.Timeouts.UpdateTimeouts | src/platform/linux_usbfs/device.rs:290-321 | the timer is disarmed if and only if the map is empty or the earliest deadline is the instant passed in; otherwise it is set to that deadline, or to ring at once |
| TimeoutQueue.Timeouts.Insert | src/platform/linux_usbfs/device.rs:524-527 | the entry is added and the timer matches the new map in that sense |
| TimeoutQueue.Timeouts.Remove | src/platform/linux_usbfs/device.rs:215-256 | the entry is removed and the timer matches the new map |
| TimeoutQueue.Timeouts.HandleTimeouts | src/platform/linux_usbfs/device.rs:265-288 | exactly the entries with a deadline up to now are discarded, each once and earliest first; the rest stays; the timer is disarmed exactly when nothing is left |
| WindowsTimeouts.NextKeepsInv | src/platform/windows_winusb/device.rs:415-458 | every step of submitter, timer callback, IO callback and user keeps the protocol invariant for all requests of an interface |
| WindowsTimeouts.EveryRaceIsSafe | src/platform/windows_winusb/device.rs:415-458 | in every interleaving the transfer is alive and not completed while its timer callback runs, nothing is cancelled before the submit call has returned, and no callback runs after the timer was stopped |
| WindowsTimeouts.TimerWillCancel | src/platform/windows_winusb/device.rs:696-752 | in every interleaving, from the arming of the timer until a completion stops it, the timer is set and can run out, or its callback is under way to the cancel, or the transfer has been cancelled; never before the timer ran out; and a transfer in the kernel is in that span |
| WindowsTimeouts.CanBeSubmitted | src/platform/windows_winusb/device.rs:696-752 | from any state with the mutex free a new transfer can be submitted, and is then with the kernel with its timer set |
| WindowsTimeouts.CanBeRefused | src/platform/windows_winusb/device.rs:761-793 | when the submit call fails, the submitter unlocks the mutex, stops the timer that it has set, and completes the transfer |
| WindowsTimeouts.CanBeCancelled | src/platform/windows_winusb/device.rs:440-458 | when the timer runs out, the callback cancels it |
| WindowsTimeouts.CanComplete | src/platform/windows_winusb/device.rs:415-438 | cancelled or not, it can complete while no callback runs: the timer is stopped first, and its user is told or its box is about to be freed |
| WindowsTimeouts.NeverDeadlocked | src/platform/windows_winusb/device.rs:696-793 | while any thread is in the middle of its work some such thread can move, also on the failed-submit path |
| WindowsTimeouts.EveryStepLowersRank | src/platform/windows_winusb/device.rs:696-793 | every step but a new transfer or an idle poll leaves less to do for its request and changes no other |
| WindowsHandles.ClaimOnMeaning | src/platform/windows_winusb/device.rs:342-399 | a claim on a handle is busy exactly when a live interface has that number on it |
| WindowsHandles.ClaimKeepsMatch | src/platform/windows_winusb/device.rs:177-224 | a claim keeps the map's keys and bits equal to the live interfaces |
| WindowsHandles.DropKeepsMatch | src/platform/windows_winusb/device.rs:488-522 | a drop finds its entry, keeps keys and bits equal to the live interfaces, and empties the set exactly for the last user |
| WindowsHandles.StoreKeepsOwnership | src/platform/windows_winusb/device.rs:267-340 | storing an entry keeps every system handle owned once or closed once |
| WindowsHandles.CloseKeepsOwnership | src/platform/windows_winusb/device.rs:402-413 | removing an entry closes its system handle once |
| WindowsHandles.WindowsDevice.ClaimVia | src/platform/windows_winusb/device.rs:342-399 | no double claim; busy exactly for a claimed number; a failed claim leaves the map as it was and closes a handle it opened |
| WindowsHandles.WindowsDevice.ClaimInterface | src/platform/windows_winusb/device.rs:177-224 | which handle each driver case uses and exactly when it succeeds and fails: busy for a live claim on it, not opened for a new handle that the system refuses |
| WindowsHandles.WindowsDevice.DropInterface | src/platform/windows_winusb/device.rs:488-522 | the missing-handle panic is unreachable, and the handle closes with its last user and not before |
| Descriptors.SplitFirst | src/descriptors.rs:87-110 | the first descriptor and the rest make up the bytes, and its length field is its length |
| Descriptors.DescriptorIter.Next | src/descriptors.rs:145-157 | the iterator yields the descriptors in order and consumes exactly their bytes |
| Descriptors.DescriptorIter.NextByType | src/descriptors.rs:112-142 | the two cursor loops yield the next group and leave the rest |
| Descriptors.GroupEndCounts | src/descriptors.rs:127-137 | the inner loop ends at a descriptor boundary, where counting whole descriptors says |
| Descriptors.SplitRefinesTokens | src/descriptors.rs:112-142 | for all bytes, splitting by type is the grouping of the descriptors that the plain iterator yields |
| Descriptors.TokensOfFlatten | src/descriptors.rs:145-157 | iterating over laid-out descriptors gives them back |
| Descriptors.GroupsAreSlices | src/descriptors.rs:112-142 | for all bytes, the groups are in-order disjoint slices of the buffer |
| Descriptors.GroupsAreGroups | src/descriptors.rs:112-142 | for all bytes, each group starts with its type and minimum length and holds whole descriptors without a second header of that type |
| Descriptors.NewConfiguration | src/descriptors.rs:355-391 | an accepted configuration is a prefix of the bytes with its nine header bytes inside |
| Descriptors.NewConfigurationFinds | src/descriptors.rs:355-391 | a configuration is found if and only if the bytes begin with a whole one: its type is 2, its header is inside, and bytes 2 and 3 are the remainder and quotient of its length by 256; and it is that one |
| Descriptors.EndpointKeepsOutInterfaces | src/descriptors.rs:547-551 | no endpoint's slice holds an interface or another endpoint descriptor |
| Descriptors.ConfigurationIsSound | src/descriptors.rs:355-412 | for all bytes that are accepted, every alternate setting and every endpoint in it has its fixed fields and its header in bounds |
| DescriptorLayout.GroupsOfParts | src/descriptors.rs:112-142 | skipped descriptors followed by headed parts are grouped into exactly those parts |
| DescriptorLayout.ReadAltInverts | src/descriptors.rs:547-551 | reading a laid-out alternate setting gives back its endpoints and extra descriptors |
| DescriptorLayout.ReadInvertsLayout | src/descriptors.rs:408-412 | reading a laid-out configuration gives the tree back, whatever bytes follow |
| DescriptorLayout.ParseConcatenated | src/descriptors.rs:709-717 | the cursor loop yields the list of configurations |
| DescriptorLayout.ChainParsesBack | src/descriptors.rs:709-717 | a chain of laid-out configurations parses back to the list, and each to its tree |
| DescriptorLayout.ByNumber | src/descriptors.rs:415-423 | the map loop files the alternate settings under their numbers, and has an entry exactly for each number that occurs |
| DescriptorLayout.OfNumberPicks | src/descriptors.rs:415-423 | what is filed under a number are the alternate settings at the positions of that number, all of them, each once, positions increasing |
| DescriptorLayout.Interfaces | src/descriptors.rs:415-431 | the numbers that occur, each once and increasing, each with its alternate settings: at strictly increasing positions of the configuration, which are exactly the positions of that number |
| Buffers.BufferMemory.constructor | src/transfer/buffer.rs:60-71 | empty, with the requested length and a capacity of at least that, as the allocator gives it |
| Buffers.BufferMemory.Clear | src/transfer/buffer.rs:149-151 | no bytes, same capacity and requested length |
| Buffers.BufferMemory.SetRequestedLen | src/transfer/buffer.rs:125-128 | only the requested length changes |
| Buffers.BufferMemory.ExtendFromSlice | src/transfer/buffer.rs:171-174 | in place: the slice is appended and nothing before it changes |
| Buffers.BufferMemory.ExtendFill | src/transfer/buffer.rs:158-168 | in place: the fill bytes are appended |
| Buffers.AsU32 | src/platform/linux_usbfs/transfer.rs:104-131 | the signed length field gives back the unsigned length that was stored |
| Buffers.TransferData.SetBuffer | src/platform/linux_usbfs/transfer.rs:91-102 | the URB carries the buffer, with the length its direction calls for |
| Buffers.TransferData.TakeCompletion | src/platform/linux_usbfs/transfer.rs:104-131 | the buffer comes back and the URB is empty |
| Buffers.TripReturnsBuffer | src/platform/linux_usbfs/transfer.rs:91-131 | through the kernel or a refused submit, an OUT buffer keeps its bytes and an IN buffer its requested length, both their capacity; the number of bytes transferred is exactly what the kernel moved, at most what it was given, and zero after a refusal; an IN buffer brings what was received for it |
| Buffers.TripForgetsUrb | src/platform/linux_usbfs/transfer.rs:91-131 | what comes back does not depend on what the URB was used for before |
| Endpoints.Endpoint.Submit | src/device.rs:770-785 | the buffer is queued last; a bad IN length never reaches the kernel and is recorded as refused, as is a failed submit call with its error; completion i still answers submission i |
| Endpoints.BadLengthMeans | src/device.rs:770-785 | a length is refused exactly for an IN buffer whose length is not a positive number of packets |
| Endpoints.Endpoint.TakeCompleted | src/transfer/internal.rs:228-234 | only the head is returned, only when complete, and it is the oldest unreturned submission as its own transfer ended; its URB is kept, emptied, for the next submission |
| Endpoints.Endpoint.Park | src/transfer/internal.rs:80-82 | the thread sleeps through events up to the first that wakes it; a completion whose waker is lost does not |
| Endpoints.Endpoint.WaitTimeout | src/transfer/internal.rs:70-84 | a waiting thread sees a run of events, the queue and the record are what these make of them; it goes back to sleep as long as the head is not complete when it looks, and returns the head if it is complete when it looks, at a timeout too |
| Endpoints.Endpoint.WaitNextComplete | src/platform/linux_usbfs/device.rs:812-820 | first in, first out: in whatever order transfers end, the oldest submission comes back with its own buffer and its own data, or nothing comes and nothing is lost, also when a wake-up is |
| Endpoints.Endpoint.PollNextComplete | src/platform/linux_usbfs/device.rs:801-810 | the same without waiting, exactly when the head is complete |
| Endpoints.Endpoint.TransferBlocking | src/device.rs:848-862 | it returns the buffer it submitted as its transfer ended and leaves nothing pending, also when the wait timed out first; a refused buffer comes back at once |
| Endpoints.HelpfulReturns | src/platform/linux_usbfs/device.rs:812-820 | a kernel that completes transfers without an error never makes the queue return one |
| Endpoints.QueuedCarries | src/platform/linux_usbfs/device.rs:786-799 | a queued transfer, refused or not, carries its buffer as the record says |
| Endpoints.EventCarries | src/platform/linux_usbfs/device.rs:215-256 | whatever the kernel does to any transfer, every queued one still carries its buffer as the record says |
| Endpoints.EventKeepsOrder | src/platform/linux_usbfs/device.rs:215-256 | an event keeps completions and queue in submission order, and what was recorded stays |
| Endpoints.TakeKeepsOrder | src/transfer/internal.rs:228-234 | taking a complete head keeps completions and queue in submission order |
| Framing.BusCarriesTransfers | src/io/write.rs:170-193 | the packets of submitted transfers carry exactly their data and, after an empty or not whole one, a message end |
| Framing.FillCarriesPackets | src/io/read.rs:61-69 | an IN transfer carries the tokens of the packets that it took |
| Framing.DrainCarriesPackets | src/io/read.rs:222-268 | for any packets and any transfer size, completed transfers carry the tokens of the packets they took |
| Framing.NothingLeftAfterShortPacket | src/io/read.rs:67-69 | after a final short packet no packet is left waiting in a transfer |
| Framing.SplitMessages | src/io/read.rs:434-454 | cutting the tokens of messages gives the messages, empty ones included |
| Framing.SplitPrefix | src/io/read.rs:434-454 | a receiver of only some of the tokens has the first messages unchanged and a beginning of the next |
| Framing.DataOfChunks | src/io/read.rs:61-64 | without its message ends, a packet stream is the concatenation of the packets |
| Multiples.RoundsUp | src/io/write.rs:48-50 | the transfer size is rounded up to the next positive multiple of the packet size |
| Writer.WrittenKeepsFaithful | src/io/write.rs:248-268 | accepting bytes, and sending a full buffer, adds exactly those bytes and no message end to what the bus carries |
| Writer.SubmittedKeepsFaithful | src/io/write.rs:164-168 | sending the buffer early loses nothing, and the log says whether it ended a message |
| Writer.EndedKeepsFaithful | src/io/write.rs:181-193 | ending a message puts exactly one message end on the bus, with an empty packet if and only if one is needed |
| Writer.EndpointWrite.constructor | src/io/write.rs:48-59 | the new writer is valid, with one transfer and exactly the rounded size |
| Writer.EndpointWrite.SetNumTransfers | src/io/write.rs:69-72 | raising the limit keeps the backpressure invariant |
| Writer.EndpointWrite.HandleCompletion | src/io/write.rs:112-121 | both assertions hold; the buffer is used again exactly when there is room; the status is returned |
| Writer.EndpointWrite.WaitOne | src/io/write.rs:124-128 | never with nothing pending; a completion that is already there is always taken; a timeout takes nothing, and only comes after an event or when none is left; each failed completion is reported once; over a kernel without errors only a timeout at the end of its script fails |
| Writer.EndpointWrite.PollOne | src/io/write.rs:130-134 | the same without blocking: pending exactly when the oldest transfer is not complete |
| Writer.EndpointWrite.Write | src/io/write.rs:248-268 | conservation: exactly as many bytes as fit join the stream and nothing else, and a transfer is sent exactly when the buffer is full; an error accepts nothing; it waits if and only if it has no buffer and the limit is reached, and then takes exactly the completions that bring it below the limit; a completion that is there is taken; every transfer error is reported once; over a kernel without errors it fails only by a timeout at the end of the script |
| Writer.EndpointWrite.PollWrite | src/io/write.rs:137-157 | the same; a pending call accepts nothing, and its oldest transfer is not complete |
| Writer.EndpointWrite.Submit | src/io/write.rs:164-168 | exactly one transfer is sent if the buffer has bytes, and none otherwise, within the limit; nothing stays buffered |
| Writer.EndpointWrite.SubmitEnd | src/io/write.rs:181-193 | the message ends on the bus, with one or two more transfers pending |
| Writer.EndpointWrite.FlushBlocking | src/io/write.rs:198-204 | everything is sent; on success nothing is pending; the first error is returned; a completion that is there is taken; over a kernel without errors it fails only by a timeout at the end of the script |
| Writer.EndpointWrite.FlushEnd | src/io/write.rs:210-216 | the message is ended and everything is sent; success and failure as for flushing |
| Reader.TestsMeanRest | src/io/read.rs:61-69 | the position tests say exactly whether data, or a message end, is left |
| Reader.RemainingMeansRest | src/io/read.rs:77-83 | what is returned is what is left up to a message end; an error only when nothing is left; no slice at the cleared position |
| Reader.EndpointRead.constructor | src/io/read.rs:105-116 | the new reader is valid, with one transfer and exactly the rounded size |
| Reader.EndpointRead.SubmitBuffer | src/io/read.rs:215-236 | a new or used buffer always has a positive multiple of the packet size as its length, so it is never refused |
| Reader.EndpointRead.SetNumTransfers | src/io/read.rs:133-142 | all but the last transfer are submitted at once |
| Reader.EndpointRead.CancelAll | src/io/read.rs:180-183 | no further transfers |
| Reader.EndpointRead.Resubmit | src/io/read.rs:215-220 | the assertion holds, and at most a message end is passed |
| Reader.EndpointRead.StartRead | src/io/read.rs:222-236 | transfers are submitted up to the number; false exactly when nothing is pending |
| Reader.EndpointRead.Wait | src/io/read.rs:252-268 | the next completion follows what was taken before, with nothing lost; a completion that is there is taken at once; a timeout takes nothing, and only comes after an event or when none is left; the end only when reading is off and nothing is pending |
| Reader.EndpointRead.FillBuf | src/io/read.rs:328-335 | passes message ends only; the end of the stream only after all that arrived; an error, which is the last completion's and no cancellation, only after all that arrived with it; with data or an error at hand nothing is submitted, taken or passed; without them the old buffer is submitted first if there is room, and a completion that is there is taken |
| Reader.EndpointRead.Consume | src/io/read.rs:86-90 | moves the bytes from unread to returned |
| Reader.EndpointRead.Give | src/io/read.rs:93-97 | the caller gets as many of the next bytes as it has room for, and they count as returned |
| Reader.EndpointRead.Read | src/io/read.rs:317-322 | conservation: the bytes returned are the next ones that arrived, as many as fit or are there, whatever the transfers; with data at hand it does not wait, and without it a completion that is there is taken; the end means that everything was returned and no transfer failed; with reading off pending transfers only run out |
| Reader.EndpointReadUntilShortPacket.IsEndMeans | src/io/read.rs:434-439 | the end test holds exactly at a message end |
| Reader.EndpointReadUntilShortPacket.ConsumeEnd | src/io/read.rs:447-454 | succeeds exactly at a message end and passes it, and otherwise changes nothing |
| Reader.EndpointReadUntilShortPacket.FillBuf | src/io/read.rs:471-481 | never passes a message end; no data exactly at one; unexpected end only after all that arrived |
| Reader.EndpointReadUntilShortPacket.Read | src/io/read.rs:460-465 | bytes of the current message only; zero bytes mean its end; failures take nothing |
| Reader.EndpointReadUntilShortPacket.Consume | src/io/read.rs:484-490 | consuming through the view succeeds if and only if the number is zero, with or without data at hand, and changes nothing |
| RoundTrip.TokensOfSplit | src/io/read.rs:434-454 | tokens and messages determine each other, the inverse of cutting |
| RoundTrip.PacketsAreInTokens | src/io/read.rs:67-69 | packets no longer than the maximum can be told from their data and message ends |
| RoundTrip.BusIsMessagePackets | src/io/write.rs:181-193 | however messages were written, in whatever pieces and with whatever transfer size, the packets on the bus are the same |
| RoundTrip.ArrivedIsSent | src/io/read.rs:222-268 | what arrived is a beginning of what was sent, and all of it when the transfers are done |
| RoundTrip.ConsumedIsLogged | src/io/write.rs:181-193 | the reader has consumed a beginning of the writer's log, and all of it at the end |
| RoundTrip.ConsumedIsMessages | src/io/read.rs:434-454 | the same for messages, as a fact about the values: the finished messages are the first ones sent, the open one begins the next, and at the end they are all |
| RoundTrip.FramingRoundTrip | src/io/read.rs:434-481 | writer, packets, reader: for all messages, chunkings, transfer sizes and numbers, and whatever order the transfers are seen to end in, the messages read are the messages sent |
| RoundTrip.TakenCarryBus | src/io/read.rs:252-268 | what the reader takes carries the packets in the order of the bus, because the queue returns the submissions in order |
| RoundTrip.SplitIsCut | src/io/read.rs:67-69 | the reader's messages are the packets cut after each short one |
| RoundTrip.ConsumedIsCut | src/io/read.rs:222-268 | as a fact about the values: the messages read are the first of the packets cut after each short one, the bytes a beginning of their concatenation, and all of them at the end |
| RoundTrip.SegmentationIsThePackets | src/io/read.rs:317-335 | for any packet stream the two readers return the packets cut after each short one, and their concatenation, whatever the transfer size |
| RoundTrip.SubmitKeepsFraming | src/io/write.rs:159-168 | submitting early keeps the framing if and only if the buffer is a whole number of packets |
| Callers.SendMessage | src/io/write.rs:248-268 | a message written in pieces of any sizes and then ended adds its bytes and one end to the log; if a write fails, exactly the bytes before it; over a kernel without errors only the end of its script can fail it |
| Callers.SendMessages | src/io/write.rs:248-268 | messages sent one after the other put their tokens into the log, and a part of them on failure; over a kernel without errors only the end of its script can fail it |
| Callers.SendFromNew | src/io/write.rs:248-268 | sending from a new writer succeeds over every kernel that completes transfers without an error, as many as there are bytes and messages to send |
| Callers.ReceiveMessage | src/io/read.rs:447-465 | reading to zero bytes and then passing the end returns exactly one message, and a failed attempt has consumed a part of one |
| Callers.CannotFail | src/io/read.rs:471-481 | over a kernel that delivers the packets of the bus and wakes the reader each time, a receive can fail only after all messages |
| Callers.ReceiveMessages | src/io/read.rs:434-481 | over such a kernel every receive succeeds, and as many receives as messages were sent return exactly those messages |
| Callers.OpenReader | src/io/read.rs:105-142 | a new reader with any transfer size and number can be put at the other end of the bus, over such a kernel |
| Callers.AcrossTheBus | src/io/read.rs:434-481 | from end to end with both ends built: for all messages, pieces, OUT results, sizes and numbers, if sending succeeds, exactly the messages are received; and it succeeds over a kernel that completes the OUT transfers without an error |
| Callers.ReadRest | src/io/read.rs:168-183 | after cancelling, reading terminates: at the end with everything returned, nothing pending and no transfer failed, or with the error of a failed transfer, which a cancelled one is not, or with a timeout, which only comes after an event or when none is left |
| Callers.ReadAgain | src/io/read.rs:55-69 | after the data has been read and a number of transfers set, the buffer is used again, when there is room, if and only if the last completion has no error but a cancellation; otherwise the error is returned and nothing changes |
| Callers.ReadOnAfterError | src/io/read.rs:55-69 | every later read returns that error, whatever numbers of transfers are set in between |
| Callers.StalledReader | src/io/read.rs:118-142 | a concrete run: a new reader whose transfer stalls, the error read, two transfers asked for, and the same error again |

## Left out

- All operating-system, FFI and JavaScript calls, the event loop and the thread pool: the kernel is a party that completes a submitted transfer once, with at most the length asked for, at any later step.
- A kernel that never completes a transfer: the event script is finite, so a wait that the script leaves asleep, because nothing happens any more or because its wake-up was lost, returns as if it had timed out without looking again; with an unlimited timeout the code does not return from it.
- Endpoints.Endpoint.TransferBlocking: requires that a transfer that the kernel took completes some time, and with an unlimited timeout does not show that a lost wake-up leaves the first wait hanging.
- `Callers.ReceiveMessages` and `Callers.AcrossTheBus` are about runs in which no waiter is lost: their kernel wakes the reader at each completion.
- Memory-ordering effects: atomics and mutexes are steps of one sequence.
- The unconditional wake-up, which is false; see `Wakeup.WakeupCanBeLost`.
- The macOS and WebUSB backends, which are thinner copies of the ownership protocol.
- Enumeration, hot-plug, sysfs, registry and hub queries, string descriptors, error-code tables and `Debug` output.
- Control transfers' setup packets, and `control_in_data` with its eight-byte offset.
- The until-short-packet view's asynchronous `poll_fill_buf`, which ignores short packets (src/io/read.rs:511-516), and its asynchronous `consume`, which is the reader's.
- The reader's asynchronous paths, which call `poll_next_complete` where the modelled ones wait; the writer's are modelled by `PollOne` and `PollWrite`, and `poll_flush` repeats `flush_blocking`.
- Timeouts as durations: a wait may time out at any event.
- Cancelled transfers in `FramingRoundTrip` and `SegmentationIsThePackets`: the reader treats a partial cancelled buffer like a short packet (src/io/read.rs:57-59). They are covered by the reader's own contracts.
- Descriptors of length 2 in the layout theorems: the iterator accepts them but a group stops at them (src/descriptors.rs:131). Soundness on all bytes covers them.
- That an open endpoint matches the current alternate setting: the descriptor is read before the state is locked (src/device.rs:528-556).
- The adapters hold buffers as values that are moved; `BufferMemory` shows the in-place operations.
- Buffers.NewBuffer: the adapters' new buffers have exactly the capacity asked for, as mapped ones and the standard allocator's have; `Buffer::new` promises at least that.
- Waking is one step with the state swap: a woken waiter is one whose waker the handler is about to fire.
- Mapped zero-copy buffers, `Buffer::into_vec` and conversions from vectors.
- The error kinds of a failed look-up of an associated interface on Windows are one error, `AssociatedFailed`.
- `clear_halt`'s short-lived reference to an `EndpointInner`, and the weak look-up of a device by the event thread.
- Dropping an endpoint's handles one by one is modelled in `Wakeup` and `Exclusivity`, not in the `Endpoint` class.
- Strong counts of the interface and device themselves, and poisoned mutexes.
