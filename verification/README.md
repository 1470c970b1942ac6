# Proofs about the HALM peripheral library

Dafny models of the protocol cores of the library, each proved against what its callers
rely on. Hardware, hosts, cards and callbacks are environments: their steps and answers are
arbitrary within what each module says at its top.

| file | source | subject |
|---|---|---|
| `Common.dfy` | | results, machine words, small arithmetic |
| `DmaRing.dfy` | `platform/lpc/gpdma_list.c`, `platform/bouffalo/dma_list.c` | descriptor ring shared by a driver and an engine that latches links early |
| `I2sStream.dfy` | `platform/lpc/i2s_dma.c` | stream requests cut into two ring chunks each |
| `PingPong.dfy`, `MscDatapath.dfy` | `usb/msc_datapath.c` | two half buffers between a USB endpoint and a storage |
| `MscDispatch.dfy` | `usb/msc.c` | command and status blocks of mass storage |
| `TimerQueue.dfy`, `TimerFactory.dfy`, `TimerLinks.dfy` | `generic/timer_factory.c` | software timers over a wrapping counter, in both modes; the links of their list |
| `SdioSpi.dfy` | `generic/sdio_spi.c` | SDIO commands over SPI as a table of states |
| `CardData.dfy`, `MmcSd.dfy` | `generic/mmcsd.c` | card specific data; transfers and bus lock |
| `WorkQueueUnique.dfy` | `generic/work_queue_unique.c` | bounded set of tasks with a queue |
| `CompositeDevice.dfy` | `usb/composite_device.c` | configuration descriptor of several drivers |
| `UsbControl.dfy` | `usb/usb_control.c` | packets of the control endpoint |

Objects that the source updates in place are classes whose methods follow its functions.
`dafny verify dfyconfig.toml` checks everything.

Results where the code does less than one may expect:

- An append to the DMA ring must not be interrupted by the end of the list
  (`DmaRing.RepeatedChunk`; `DmaRing.Channel.InterruptedAppend` says exactly when that makes
  the engine load a wrong slot); with a running engine any interrupt is harmless. The I2S
  driver masks its appends.
- After the controller has refused to start a stream for one request, the next request
  fails the assertion on the capacity of the ring (`I2sStream.RefusedStart`,
  `I2sStream.Stream.RoomForBothHalves`).
- A timer period of 2^31 passes the assertion of the setter but is not ordered against
  short periods (`TimerQueue.PeriodsCompared`). A timer that is disabled by an
  earlier callback of the tick in which it expires is still called in that tick. The value
  of an overdue timer is wrong unless the counter has 32 bits
  (`TimerFactory.Factory.GetValue`).
- A callback may enable the last timer that waits for its call in the same tick. The
  handler then calls other timers too early and drops them from the list, unless the new
  deadline is the latest of all (`TimerLinks.Links.EnableLastWaiting`).
- The retry branch of the state that waits for the response to a written block is never
  taken (`SdioSpi.WriteResponseIsNeverBusy`), and with checksum verification the result of
  an injected stop command does not reach the caller (`SdioSpi.Interface.ReadToEnd`).
- The sector count of a high capacity card with the largest size code is zero
  (`CardData.Card.ExtendedSize`).
- A control response that fills the payload buffer is never sent, because it needs one
  packet more than there are requests (`UsbControl.Control.FullPayloadIsDropped`). A
  response of full packets that is as long as the host asked for is followed by an empty
  packet that the host does not read (`UsbControl.HostRecovers`). An endpoint that
  terminates its requests on a setup packet, as in `platform/lpc/lpc43xx/usb_device.c:495`
  and `platform/imxrt/usb_device.c:526`, removes it; on an endpoint that retains them the
  next response is lost (`UsbControl.NextResponse`, `UsbControl.Control.TwoRequests`).
- A command block of a wrong length is answered with the tag of the command before it, and
  a block without signature does not start a new reception
  (`MscDispatch.Msc.Dispatch`).

## Model

| member | source | states |
|---|---|---|
| `DmaRing.ReleaseKeepsLinks` | platform/lpc/gpdma_list.c:59-107 | giving the oldest slot back keeps the remaining live chunks in consecutive, linked slots |
| `DmaRing.FreeSlotKeepsLinks` | platform/lpc/gpdma_list.c:290-304 | a write to the free slot is invisible to the live chunks |
| `DmaRing.LinkExtends` | platform/lpc/gpdma_list.c:298-308 | the one write of the predecessor's link makes the filled slot live |
| `DmaRing.Channel.constructor` | platform/lpc/gpdma_list.c:123-156 | a new channel is idle and empty |
| `DmaRing.Channel.StartTransfer` | platform/lpc/gpdma_list.c:109-121 | the engine loads the oldest unfinished chunk and latches the link that is in memory at that time |
| `DmaRing.Channel.CompleteChunk` | platform/lpc/gpdma_list.c:109-121 | hardware step: the finished chunk joins the transferred ones, the engine follows the latched link or stops, even if a link has been written since |
| `DmaRing.Channel.InterruptHandler` | platform/lpc/gpdma_list.c:59-107 | one queued chunk is accounted for; Done exactly when every appended chunk has been transferred; harmless between the statements of an append while the engine runs |
| `DmaRing.Channel.Interrupt` | platform/lpc/lpc17xx/gpdma_base.c:166-199 | the result is E_BUSY while the engine runs and E_OK when it stopped; afterwards the channel is done or still transferring, depending on what is left |
| `DmaRing.Channel.Restart` | platform/lpc/gpdma_list.c:74-89 | after a lost race the slot recomputed from index and queued holds the first unfinished chunk |
| `DmaRing.Channel.Release` | platform/lpc/gpdma_list.c:59-72 | one finished chunk leaves the ring and the others stay linked |
| `DmaRing.Channel.Environment` | platform/lpc/gpdma_list.c:274-323 | any number of completions and interrupts with a running engine keep the ring intact between two statements of an append |
| `DmaRing.Channel.Append` | platform/lpc/gpdma_list.c:274-323 | for every interleaving the chunk is appended once, at the end, and the transferred chunks only grow |
| `DmaRing.Channel.Extend` | platform/lpc/gpdma_list.c:285-322 | the observable part of an append, for a running and for a prepared list |
| `DmaRing.Channel.Reserve` | platform/lpc/gpdma_list.c:285-296 | the slot is the free one and the predecessor is the slot before it, whatever is transferred meanwhile |
| `DmaRing.Channel.Fill` | platform/lpc/gpdma_list.c:298-304 | the free descriptor holds the chunk and a null link |
| `DmaRing.Channel.Link` | platform/lpc/gpdma_list.c:306-313 | the chunk becomes the youngest live one |
| `DmaRing.Channel.Commit` | platform/lpc/gpdma_list.c:315-322 | index and counter agree with the live chunks again |
| `DmaRing.Channel.Rewind` | platform/lpc/gpdma_list.c:278-285 | a finished list starts again in slot 0, an erroneous one is forgotten |
| `DmaRing.Channel.Enable` | platform/lpc/gpdma_list.c:186-211 | the prepared list starts with its first chunk, or the controller refuses and the channel becomes erroneous with E_BUSY |
| `DmaRing.Channel.Disable` | platform/lpc/gpdma_list.c:213-225 | the completed chunks are still a prefix of the appended ones |
| `DmaRing.Channel.Clear` | platform/lpc/gpdma_list.c:325-332 | nothing is queued any more, and the channel is consistent exactly when the engine has been stopped before |
| `DmaRing.Channel.Residue` | platform/lpc/gpdma_list.c:227-253 | the count of transfers is given exactly when the latched link is that of the oldest unfinished chunk, and then it is what is left of that chunk |
| `DmaRing.Channel.Run` | platform/lpc/gpdma_list.c:59-121 | over every run the transferred chunks are a prefix of the appended ones, in order and each once; Done only when nothing is left |
| `DmaRing.Channel.Drain` | platform/lpc/gpdma_list.c:59-121 | without further appends every chunk is transferred and Done is reached in at most two steps per chunk |
| `DmaRing.RepeatedChunk` | platform/lpc/gpdma_list.c:287-323 | an append that is interrupted by the end of the list between its two counter updates makes the next start load the finished chunk again: the reason for the mask |
| `DmaRing.Channel.InterruptedAppend` | platform/lpc/gpdma_list.c:59-121 | an append whose steps are interrupted by the end of the list keeps the list exactly when the interrupt comes between two consistent readings of index and counter with chunks left, or before the count with nothing left and slot 0 free; otherwise the engine loads a slot other than that of the oldest unfinished chunk |
| `DmaRing.Channel.EndAtEntry` | platform/lpc/gpdma_list.c:285-293 | before the index moves the restart is right; without chunks left only slot 0 is started |
| `DmaRing.Channel.EndBeforeLink` | platform/lpc/gpdma_list.c:295-313 | with the index ahead of the counter the restart skips the oldest chunk |
| `DmaRing.Channel.EndBeforeCount` | platform/lpc/gpdma_list.c:306-317 | if the new chunk itself was transferred, the counter wraps around and the restart uses a slot outside the list |
| `DmaRing.Channel.EndAfterCount` | platform/lpc/gpdma_list.c:315-322 | a list that is done after the count is marked ready with nothing in it |
| `I2sStream.PartsAreWholeSamples` | platform/lpc/i2s_dma.c:602-617 | both parts of a request are whole samples and cover it |
| `I2sStream.HalvedExtends` | platform/lpc/i2s_dma.c:590-644 | two appends keep the chunks the halves of the requests, in order |
| `I2sStream.Stream.QueueMatchesRing` | platform/lpc/i2s_dma.c:285-359 | the number of queued requests is the rounded up half of the queued chunks |
| `I2sStream.Stream.constructor` | platform/lpc/i2s_dma.c:549-561 | an empty stream |
| `I2sStream.Stream.Enqueue` | platform/lpc/i2s_dma.c:590-644 | E_FULL exactly when the queue is full, E_INTERFACE exactly when the controller refuses to start, which leaves the channel erroneous; else the request is last in the queue and its halves are last in the ring |
| `I2sStream.Stream.RoomForBothHalves` | platform/lpc/i2s_dma.c:602-630 | the ring has room for both appends unless a refused start has filled the ring of a stream for one request |
| `I2sStream.RefusedStart` | platform/lpc/i2s_dma.c:590-644 | a refused start leaves the stream for one request with an empty queue and a full ring |
| `I2sStream.Stream.AppendHalves` | platform/lpc/i2s_dma.c:673-724 | both halves are appended in order, with the engine running meanwhile; a stopped ring is started or refused |
| `I2sStream.Stream.DmaInterrupt` | platform/lpc/i2s_dma.c:274-323 | an interrupt completes at most the oldest request, and only after both halves |
| `I2sStream.Stream.DmaHandler` | platform/lpc/i2s_dma.c:325-359 | a request is completed exactly when its second half is done or the ring has stopped |
| `I2sStream.Stream.Drain` | platform/lpc/i2s_dma.c:285-359 | in an error-free run every request is completed once, in the order of the queue |
| `I2sStream.Stream.Clear` | platform/lpc/i2s_dma.c:563-588 | every queued request is cancelled once, in order |
| `I2sStream.Stream.CancelAll` | platform/lpc/i2s_dma.c:646-671 | the queue is emptied in order |
| `PingPong.CoversExtends` | usb/msc_datapath.c:47-80 | the next packet of `prepareDataRx` continues the covered range |
| `PingPong.CoversWithin` | usb/msc_datapath.c:304-331 | packets stay inside the half and there are some exactly when the range is not empty |
| `PingPong.CoversFirst` | usb/msc_datapath.c:304-331 | the oldest packet starts where the progress ends; the last one ends with the half |
| `PingPong.PartitionMoves` | usb/msc_datapath.c:153-187 | a free half moves to a queue |
| `PingPong.PartitionPasses` | usb/msc_datapath.c:473-496 | a half moves from one queue to the other |
| `PingPong.PartitionReturns` | usb/msc_datapath.c:416-448 | a half returns to the pool |
| `PingPong.TilesExtend` | usb/msc_datapath.c:171-187 | a query with the next part of the range keeps the ranges gapless |
| `PingPong.TilesPass` | usb/msc_datapath.c:473-496 | passing a half on keeps the order of the ranges |
| `PingPong.TilesFinish` | usb/msc_datapath.c:416-448 | a finished front leaves a tiling of the rest of the range |
| `PingPong.PacketArrives` | usb/msc_datapath.c:304-316 | a packet extends the bytes of the front half and leaves complete halves alone |
| `PingPong.HalfArrives` | usb/msc_datapath.c:473-496 | a full half takes its bytes along |
| `PingPong.HalfWritten` | usb/msc_datapath.c:397-448 | the half continues the part of the storage that equals the bytes of the host |
| `PingPong.HoldsHostKept` | usb/msc_datapath.c:189-232 | filling and enqueueing leave received bytes in place |
| `PingPong.ReadArrives` | usb/msc_datapath.c:344-395 | a storage read fills its half with the bytes of its range and leaves the other half alone |
| `PingPong.PacketCarries` | usb/msc_datapath.c:318-331 | a packet continues the bytes sent so far with those of the storage |
| `MscDatapath.Handler.constructor` | usb/msc_datapath.c:564-591 | every USB request is in the pool |
| `MscDatapath.Handler.EnqueueUsb` | usb/msc_datapath.c:47-80 | packets cover the rest of the query until it or the pool is exhausted |
| `MscDatapath.Handler.EnqueueRequests` | usb/msc_datapath.c:82-98 | the offset of the front query moves by what was enqueued |
| `MscDatapath.Handler.TakeQuery` | usb/msc_datapath.c:153-169 | the query gets the next part of the range, at most a half |
| `MscDatapath.Handler.FillUsbReadQueue` | usb/msc_datapath.c:171-187 | the free halves tile the next part of the range, until none is free or nothing is left |
| `MscDatapath.Handler.FillStorageReadQueue` | usb/msc_datapath.c:153-169 | the same for the storage queue |
| `MscDatapath.Handler.PacketsOutstanding` | usb/msc_datapath.c:82-151 | after an enqueue the front query has a packet on the endpoint, whatever the watermark |
| `MscDatapath.Handler.AdvanceStages` | usb/msc_datapath.c:193-226 | every stage that can work starts to |
| `MscDatapath.Handler.AdvanceAndReport` | usb/msc_datapath.c:193-232 | E_OK is reported exactly when both halves are free and nothing is left, E_INTERFACE when the environment refuses |
| `MscDatapath.Handler.HandleIncomingFlow` | usb/msc_datapath.c:189-232 | the queues still tile the unfinished suffix and nothing that could run waits |
| `MscDatapath.Handler.HandleOutgoingFlow` | usb/msc_datapath.c:234-277 | the same with the queues in the other order |
| `MscDatapath.Handler.ContinueIncoming` | usb/msc_datapath.c:189-232 | the bytes of the host stay where they are |
| `MscDatapath.Handler.UsbRxSilentCallback` | usb/msc_datapath.c:498-517 | above and below the watermark the transfer goes on |
| `MscDatapath.Handler.PassToStorage` | usb/msc_datapath.c:473-488 | the full half waits for its storage operation |
| `MscDatapath.Handler.UsbRxLastCallback` | usb/msc_datapath.c:473-496 | the full half moves on and the transfer continues |
| `MscDatapath.Handler.PacketReceived` | usb/msc_datapath.c:304-316 | the bytes of a packet extend the front half |
| `MscDatapath.Handler.AcceptPacket` | usb/msc_datapath.c:304-316 | the bytes of the host, and nothing else, reach the buffer of the oldest packet |
| `MscDatapath.Handler.CompleteRx` | usb/msc_datapath.c:473-517 | each packet moves its bytes from the host to its buffer and the transfer forward |
| `MscDatapath.Handler.ReturnFromStorage` | usb/msc_datapath.c:432-441 | the written half is free again |
| `MscDatapath.Handler.StorageWriteCallback` | usb/msc_datapath.c:416-448 | the half returns to the pool and the transfer continues |
| `MscDatapath.Handler.Store` | usb/msc_datapath.c:397-414 | the storage takes the bytes of the front half at the end of the finished part |
| `MscDatapath.Handler.CompleteWrite` | usb/msc_datapath.c:397-448 | the storage takes the bytes that the operation names, and the finished part moves forward |
| `MscDatapath.Handler.MakePingPongTransfer` | usb/msc_datapath.c:279-302 | two disjoint halves, nothing queued, nothing reported |
| `MscDatapath.Handler.ReceiveAndWriteData` | usb/msc_datapath.c:709-718 | a transfer of the whole range starts unless the endpoint refuses |
| `MscDatapath.Handler.PacketsAvoidOperation` | usb/msc_datapath.c:171-232 | no packet of the host targets the half that a storage write reads |
| `MscDatapath.Handler.Waiting` | usb/msc_datapath.c:189-277 | an unfinished transfer always waits for a packet or for the storage: it cannot stall |
| `MscDatapath.Handler.Delivered` | usb/msc_datapath.c:189-232 | a finished transfer has stored every byte and reported E_OK once |
| `MscDatapath.Handler.WriteTransfer` | usb/msc_datapath.c:709-718 | for every order of completions: storage [P, P+L) equals the bytes of the host, the rest is unchanged, E_OK is reported once; without refusals it always gets there |
| `MscDatapath.Handler.ContinueOutgoing` | usb/msc_datapath.c:234-277 | the bytes read so far stay where they are |
| `MscDatapath.Handler.UsbTxSilentCallback` | usb/msc_datapath.c:543-562 | above and below the watermark the transfer goes on |
| `MscDatapath.Handler.ReturnFromUsb` | usb/msc_datapath.c:519-534 | the sent half is free again |
| `MscDatapath.Handler.UsbTxLastCallback` | usb/msc_datapath.c:519-541 | the sent half returns to the pool and the transfer continues |
| `MscDatapath.Handler.PacketSent` | usb/msc_datapath.c:318-331 | the bytes sent are the storage bytes up to the new position |
| `MscDatapath.Handler.TakePacket` | usb/msc_datapath.c:543-562 | the oldest packet leaves the endpoint, and the bytes of its buffer have been sent |
| `MscDatapath.Handler.CompleteTx` | usb/msc_datapath.c:519-562 | each packet moves the bytes of its buffer to the host and the transfer forward |
| `MscDatapath.Handler.PassToUsb` | usb/msc_datapath.c:379-388 | the half that was read waits for the host |
| `MscDatapath.Handler.StorageReadCallback` | usb/msc_datapath.c:363-395 | the half moves on and the transfer continues |
| `MscDatapath.Handler.Fetch` | usb/msc_datapath.c:344-361 | the half holds the storage bytes of its range |
| `MscDatapath.Handler.CompleteRead` | usb/msc_datapath.c:344-395 | the memory takes the bytes that the operation names, and the unread part moves forward |
| `MscDatapath.Handler.ReadAndSendData` | usb/msc_datapath.c:720-734 | a transfer of the whole range starts unless the storage refuses |
| `MscDatapath.Handler.Sent` | usb/msc_datapath.c:234-277 | a finished transfer has sent every byte and reported E_OK once |
| `MscDatapath.Handler.ReadTransfer` | usb/msc_datapath.c:720-734 | for every order of completions: the bytes sent are storage [P, P+L) in order, E_OK is reported once; without refusals it always gets there |
| `TimerQueue.DistanceIsModular` | generic/timer_factory.c:168-177 | `distance` is the difference modulo the counter period exactly when the difference fits 32 signed bits or the counter has 32 bits |
| `TimerQueue.DistanceCompares` | generic/timer_factory.c:187-195 | instants that are close enough are compared correctly by their remainders |
| `TimerQueue.PeriodsCompared` | generic/timer_factory.c:544-557 | deadlines less than a period apart are ordered exactly for periods up to half of the counter; the setter admits one more |
| `TimerQueue.AdvanceIsModular` | generic/timer_factory.c:598-600 | one correction after a 32-bit addition yields the remainder |
| `TimerQueue.InsertedInOrder` | generic/timer_factory.c:179-204 | insertion in front of equal deadlines keeps the order by deadline, youngest first |
| `TimerQueue.DueAreInFront` | generic/timer_factory.c:213-224 | the timers taken by the loop are exactly those whose deadline has come |
| `TimerQueue.CountDueIs` | generic/timer_factory.c:260-275 | the loop stops at the first timer that is not due |
| `TimerQueue.SameDeadlineInArmingOrder` | generic/timer_factory.c:179-249 | insertion before equal timestamps and the reversing extraction cancel out: due timers with one deadline are called as armed |
| `TimerFactory.SteadyIsPeriodic` | generic/timer_factory.c:235-245 | deadlines that follow each other by a period are multiples of it |
| `TimerFactory.MetGrid` | generic/timer_factory.c:235-245 | the calls of an active continuous timer since it was armed at t are for t+p, t+2p and so on, and its next deadline is the next of these |
| `TimerFactory.MetEveryDeadline` | generic/timer_factory.c:206-249 | in the periodic mode these are all such deadlines up to now |
| `TimerFactory.DueAreCalled` | generic/timer_factory.c:206-249 | the calls of a pass are for the due timers and no others, each once, and in arming order where the deadline is the same |
| `TimerFactory.LoggedCall` | generic/timer_factory.c:226-233 | a call is the next deadline met by its timer |
| `TimerFactory.LedgerCalled` | generic/timer_factory.c:226-233 | a call is for the arming of its timer, which gets no other call |
| `TimerFactory.LedgerExtracted` | generic/timer_factory.c:213-224 | due timers go on waiting for their calls |
| `TimerFactory.LedgerDisabled` | generic/timer_factory.c:496-509 | a disabled timer loses its call only while it is in the list |
| `TimerFactory.NoneWaits` | generic/timer_factory.c:258-304 | no arming with a deadline before those of the list waits |
| `TimerFactory.EntersSound` | generic/timer_factory.c:179-204 | a timer that enters the list keeps order, flags and deadlines consistent |
| `TimerFactory.DisabledSound` | generic/timer_factory.c:496-509 | a disabled timer leaves them consistent, in the list or expired |
| `TimerFactory.ExtractedSound` | generic/timer_factory.c:213-224 | the due timers leave the list in reverse order, the others stay ordered |
| `TimerFactory.CalledSound` | generic/timer_factory.c:226-233 | a call is for the deadline of the timer |
| `TimerFactory.ReturnedSound` | generic/timer_factory.c:235-246 | a timer that is not scheduled after its callback is not armed again |
| `TimerFactory.TickIsReachable` | generic/timer_factory.c:211-214 | equality of 32-bit timestamps finds exactly the timers of the tick, also across the wrap of the counter |
| `TimerFactory.ReadingIsReachable` | generic/timer_factory.c:255-266 | the distance comparison finds exactly the due timers |
| `TimerFactory.DistanceToDeadline` | generic/timer_factory.c:566-570 | the distance to a deadline ahead is the number of ticks; behind it, one counter period more |
| `TimerFactory.EarliestInFront` | generic/timer_factory.c:308-313 | the head of the list has the earliest deadline |
| `TimerFactory.Factory.constructor` | generic/timer_factory.c:340-355 | an empty factory of either mode |
| `TimerFactory.Factory.Create` | generic/timer_factory.c:456-472 | a new timer that is not armed |
| `TimerFactory.Factory.InsertTimer` | generic/timer_factory.c:179-204 | the new timer is in front of the first one with the same or a later deadline |
| `TimerFactory.Factory.RemoveTimer` | generic/timer_factory.c:325-338 | the timer and nothing else leaves the list |
| `TimerFactory.Factory.Arm` | generic/timer_factory.c:235-245 | the timer is in the list with its deadline, all others are as before |
| `TimerFactory.Factory.Enable` | generic/timer_factory.c:587-615 | the deadline is one period from now, and the timer is the youngest by its stamp; a timer at the head sets the wake time one tick behind it |
| `TimerFactory.Factory.Disable` | generic/timer_factory.c:496-509 | the timer is in the list no more and will not be armed again |
| `TimerFactory.Factory.Callback` | generic/timer_factory.c:226-246 | a callback that enables and disables any timers leaves expired timers and untouched timers alone |
| `TimerFactory.Factory.ArmAgain` | generic/timer_factory.c:290-303 | the next deadline is one period after the last, the assertion on the distance holds |
| `TimerFactory.Factory.CallNext` | generic/timer_factory.c:226-246 | the next expired timer is called for its deadline, and the timers that wait keep theirs |
| `TimerFactory.Factory.BeginCall` | generic/timer_factory.c:226-233 | the oldest waiting timer is taken and its call recorded before the callback runs |
| `TimerFactory.Factory.EndCall` | generic/timer_factory.c:235-246 | a timer that is still scheduled is armed again, any other is left alone |
| `TimerFactory.Factory.TakeDue` | generic/timer_factory.c:213-224 | exactly the due timers are taken, in reverse order |
| `TimerFactory.Factory.RunExpired` | generic/timer_factory.c:226-246 | every expired timer is called once, in that order |
| `TimerFactory.Factory.Expire` | generic/timer_factory.c:258-278 | the due timers expire and the rest of the list lies beyond the current time |
| `TimerFactory.Factory.Pass` | generic/timer_factory.c:258-304 | a pass calls exactly the due timers in order, also those disabled by an earlier callback of the same pass |
| `TimerFactory.Factory.Interrupt` | generic/timer_factory.c:206-249 | a tick calls exactly the timers whose deadline it is, at that tick, in the order in which they were armed |
| `TimerFactory.Factory.Ticks` | generic/timer_factory.c:206-249 | over any number of ticks with any callbacks and tasks, a continuous timer with period p armed at t that nobody disables is called at t+p, t+2p and so on up to now, and at no other time |
| `TimerFactory.Factory.GetValue` | generic/timer_factory.c:559-571 | the ticks since the timer was armed, exactly when it is not overdue or the counter has 32 bits |
| `TimerFactory.Factory.SetWakeTime` | generic/timer_factory.c:308-317 | the wake time is the earliest deadline plus one, or half a counter period ahead, modulo the counter period |
| `TimerFactory.Factory.Overslept` | generic/timer_factory.c:319-322 | the loop goes on exactly when the wake time has gone by |
| `TimerFactory.Factory.TicklessRound` | generic/timer_factory.c:258-322 | a round calls exactly the due timers, those with one deadline in arming order; one-shot timers may be late by any time that leaves deadlines comparable |
| `TimerFactory.Factory.InterruptTickless` | generic/timer_factory.c:251-323 | the handler leaves no timer overdue at its last reading and has programmed the earliest deadline; every arming with a deadline before now, one-shot or not, has had its one call unless it was disabled, and a continuous timer was called for each deadline before now; all this unless a reading is a period or more late for a continuous timer |
| `TimerLinks.ChainInserted` | generic/timer_factory.c:195-199 | a timer is linked in front of the place that the search found |
| `TimerLinks.Links.InsertTimer` | generic/timer_factory.c:179-199 | the links after the insertion are those of the list with the timer in front of the first one with the same or a later deadline |
| `TimerLinks.Links.CallWaiting` | generic/timer_factory.c:226-233 | the handler calls the timers that the links lead to, and cuts their links |
| `TimerLinks.Links.EnableLastWaiting` | generic/timer_factory.c:479-491 | the assertion admits the last waiting timer; the handler then calls all timers behind it in the list and drops them, which is harmless exactly if its deadline is the latest |
| `SdioSpi.ResponseIsFinal` | generic/sdio_spi.c:704-722 | the idle pattern is busy while retries are left and a timeout afterwards; every other token is final |
| `SdioSpi.WriteResponseIsNeverBusy` | generic/sdio_spi.c:469-472 | the masked response to a block can never be the idle pattern: a late response is a device error |
| `SdioSpi.EntryKeepsPhase` | generic/sdio_spi.c:144-171 | entering a chosen state keeps the counters in range; retries and blocks never go below zero |
| `SdioSpi.RemainingIsBounded` | generic/sdio_spi.c:648-687 | from every state at most 20000 events per block and 45000 more are left |
| `SdioSpi.StoredBlocks` | generic/sdio_spi.c:358-388 | block i is at offset i times the block size, its checksum at index i of the pool |
| `SdioSpi.BlockArrives` | generic/sdio_spi.c:358-365 | the bytes of a block reach their offset |
| `SdioSpi.ChecksumKept` | generic/sdio_spi.c:376-388 | the checksum of the block reaches its index |
| `SdioSpi.StopInjected` | generic/sdio_spi.c:597-611 | the stop command replaces the command of a complete read |
| `SdioSpi.SumsComputed` | generic/sdio_spi.c:546-558 | the pool holds the checksum of every block to write |
| `SdioSpi.FrameBegins` | generic/sdio_spi.c:426-434 | the start token of the next block follows the complete frames |
| `SdioSpi.FrameFilled` | generic/sdio_spi.c:436-443 | the block behind the token is the next one |
| `SdioSpi.FrameEnds` | generic/sdio_spi.c:445-467 | the checksum belongs to that block |
| `SdioSpi.Interface.constructor` | generic/sdio_spi.c:762-830 | an idle interface |
| `SdioSpi.Interface.WaitRespAdvance` | generic/sdio_spi.c:206-255 | accepted commands go on as their flags say, a busy card is asked again, anything else ends with its status |
| `SdioSpi.Interface.ReadShortAdvance` | generic/sdio_spi.c:263-285 | the response is the transmitted number, a stopped transfer waits for the card |
| `SdioSpi.Interface.WaitLongAdvance` | generic/sdio_spi.c:293-313 | start token, retry or final status |
| `SdioSpi.Interface.ReadLongAdvance` | generic/sdio_spi.c:321-334 | the four words of the response, the first one last |
| `SdioSpi.Interface.WaitReadAdvance` | generic/sdio_spi.c:336-356 | start token, retry, with a delay if there is a timer, or final status |
| `SdioSpi.Interface.ReadCrcAdvance` | generic/sdio_spi.c:372-414 | the two bytes of the card are kept as checksum; then the next block, the verification, the injected stop or the end |
| `SdioSpi.Interface.KeepChecksum` | generic/sdio_spi.c:376-388 | the pool index is in range |
| `SdioSpi.Interface.WaitWriteAdvance` | generic/sdio_spi.c:469-490 | accepted or final; never a retry |
| `SdioSpi.Interface.WriteBusyAdvance` | generic/sdio_spi.c:497-530 | a timeout after the last retry, else the next block, the stop token or success |
| `SdioSpi.Interface.ComputeChecksums` | generic/sdio_spi.c:546-558 | every block of the data has its checksum in the pool |
| `SdioSpi.Interface.ChecksumsMatch` | generic/sdio_spi.c:562-578 | true exactly when every received checksum is the one of its block |
| `SdioSpi.Interface.VerifyCrcAdvance` | generic/sdio_spi.c:562-594 | the verdict becomes the status of the transfer before a stop command is injected |
| `SdioSpi.Interface.DefaultAdvance` | generic/sdio_spi.c:653-656 | the fixed transitions of the table |
| `SdioSpi.Interface.RequestToken` | generic/sdio_spi.c:287-291 | one retry is counted |
| `SdioSpi.Interface.ReadDataEnter` | generic/sdio_spi.c:358-365 | one block is requested at its offset |
| `SdioSpi.Interface.WriteDataEnter` | generic/sdio_spi.c:436-443 | one block is sent from its offset |
| `SdioSpi.Interface.WriteCrcEnter` | generic/sdio_spi.c:445-467 | the checksum of that block is sent, or all ones |
| `SdioSpi.Interface.SendCommandEnter` | generic/sdio_spi.c:191-198 | the command in progress is sent |
| `SdioSpi.Interface.Enter` | generic/sdio_spi.c:144-171 | every entry keeps the invariant, does not raise the bound, and sends what the history says |
| `SdioSpi.Interface.Advance` | generic/sdio_spi.c:653-658 | every advance follows the table for the token of the card, with the response and the status that it gives, and lowers the bound |
| `SdioSpi.Interface.InterruptHandler` | generic/sdio_spi.c:648-687 | the state that the table gives for the token of the card; either the operation goes on with a smaller bound, or it is over with one callback and its final status |
| `SdioSpi.Interface.Deliver` | generic/sdio_spi.c:358-370 | the bytes of the card reach the command buffer or their place in the memory, and nothing else changes |
| `SdioSpi.Interface.Complete` | generic/sdio_spi.c:648-687 | for any answer of the card: its bytes and its checksum join the history, its words become the response, and the next state and the final status are those of the table for its token |
| `SdioSpi.Interface.Execute` | generic/sdio_spi.c:627-646 | a command without data starts |
| `SdioSpi.Interface.ReadBlocks` | generic/sdio_spi.c:978-1002 | a read of whole blocks starts |
| `SdioSpi.Interface.WriteBlocks` | generic/sdio_spi.c:1004-1032 | a write of whole blocks starts, with its checksums first if they are asked for |
| `SdioSpi.Interface.Run` | generic/sdio_spi.c:648-687 | for every behaviour of the card the operation ends after a bounded number of events with exactly one callback, and the history is what was sent and answered in these events |
| `SdioSpi.Interface.StatusIsFinal` | generic/sdio_spi.c:890-917 | the status of an idle interface is never busy; the stop command is sent exactly after a complete read that asks for it |
| `SdioSpi.Interface.ReadToEnd` | generic/sdio_spi.c:978-1002 | a whole read: when every block has come with its checksum, the memory holds the bytes that the card has answered and is otherwise unchanged, and the status is the CRC error exactly when an answered checksum differs from that of its block, even after an injected stop |
| `SdioSpi.Interface.WriteToEnd` | generic/sdio_spi.c:1004-1032 | a whole write: success means that the frames of all blocks were sent in order, with the stop token after more than one |
| `SdioSpi.Interface.ReadResult` | generic/sdio_spi.c:562-594 | a finished read that got all its data has stored it, and its status is the CRC error exactly when a checksum differs, even after an injected stop |
| `SdioSpi.Interface.ReadSucceedsComplete` | generic/sdio_spi.c:336-414 | success means that every block has arrived |
| `SdioSpi.Interface.WriteResult` | generic/sdio_spi.c:426-536 | success means that every block was sent in its frame, in order, and the stop token after more than one |
| `CardData.ExtractBitsAt` | generic/mmcsd.c:507-520 | every bit of a range up to 31 wide comes from its position, also across words |
| `CardData.FlatAt` | generic/mmcsd.c:499-505 | the bit at a position of the words |
| `CardData.ExtractBitsIsSlice` | generic/mmcsd.c:507-520 | the field is the quotient and remainder of the 128-bit number |
| `CardData.UnpackedValue` | generic/sdio_spi.c:321-334 | the stored words are the number that the card has sent |
| `CardData.FieldIsExtracted` | generic/mmcsd.c:507-520 | the field of the stored words is the field of the 16 transmitted bytes |
| `CardData.SectorsOfCapacity` | generic/mmcsd.c:841-846 | the shifts compute (C_SIZE + 1) * 2^(C_SIZE_MULT + 2) * 2^READ_BL_LEN in sectors of 512 bytes without overflow |
| `CardData.Card.ParseCardSpecificData` | generic/mmcsd.c:808-853 | card type, sector count and erase group size from the transmitted bytes; standard capacity as in section 5.3.2 of the SD Physical Layer Simplified Specification |
| `CardData.Card.ParseEraseGroup` | generic/mmcsd.c:819-835 | erase group size by card type |
| `CardData.Card.ParseSectorCount` | generic/mmcsd.c:837-852 | sector count by capacity type |
| `CardData.Card.ExtendedSize` | generic/mmcsd.c:848-852 | the largest size code of a high capacity card wraps around to zero, every other is right |
| `MmcSd.Next` | generic/mmcsd.c:662-749 | every interrupt leads to a state with fewer interrupts to come |
| `MmcSd.IdleMeansSuccess` | generic/mmcsd.c:662-749 | whatever the interface answers, a transfer ends idle exactly when its data phase has succeeded and so has the stop command if there is one, unless a command completes at once |
| `MmcSd.FailureCanEndIdle` | generic/mmcsd.c:701-716 | a failed data phase ends idle exactly when its stop command completes at once |
| `MmcSd.Device.constructor` | generic/mmcsd.c:1023-1070 | an idle device that does not hold the bus |
| `MmcSd.Device.ExecuteCommand` | generic/mmcsd.c:457-497 | the command runs exactly when the result is E_BUSY |
| `MmcSd.Device.StartTransfer` | generic/mmcsd.c:904-933 | the read or the write of the caller runs exactly when its parameters and the whole buffer are accepted |
| `MmcSd.Device.OnTransferStateSetupFinished` | generic/mmcsd.c:780-806 | the state that the card reports decides between transfer, selection and failure |
| `MmcSd.Device.StartCardSelection` | generic/mmcsd.c:885-902 | the selection or the transfer runs exactly on success |
| `MmcSd.Device.StartTransferStateSetup` | generic/mmcsd.c:935-952 | the operation of the next state runs exactly on success |
| `MmcSd.Device.TransferEnded` | generic/mmcsd.c:685-720 | the status of the interface decides between the end, the stop command and the halt command, and the result of the command what follows |
| `MmcSd.Device.InterruptHandler` | generic/mmcsd.c:662-749 | one step of the transfer for the status of the interface; the event is raised exactly on the move to a final state, and the bus stays locked until then |
| `MmcSd.Device.Start` | generic/mmcsd.c:963-1000 | the bus is locked and the first operation runs, or the bus is released again with the event |
| `MmcSd.Device.TransferBuffer` | generic/mmcsd.c:963-1016 | one acquisition, one release and one event per transfer, after at most four interrupts; the final state is the one that the answers of the interface lead to |
| `WorkQueueUnique.CompareIsOrder` | generic/work_queue_unique.c:146-157 | the comparator is a strict total order |
| `WorkQueueUnique.AddedIsProper` | generic/work_queue_unique.c:192-255 | the simple form keeps its bounds: the push never overflows |
| `WorkQueueUnique.AddDuringCallback` | generic/work_queue_unique.c:329-344 | a task can be added again during its own callback |
| `WorkQueueUnique.SortedDistinct` | generic/work_queue_unique.c:114-144 | no task is in two buckets |
| `WorkQueueUnique.InsertedSorted` | generic/work_queue_unique.c:207-225 | insertion at the found place keeps the index strictly sorted |
| `WorkQueueUnique.NotKnown` | generic/work_queue_unique.c:114-144 | an unsuccessful search means that the task is not known |
| `WorkQueueUnique.QueuedTask` | generic/work_queue_unique.c:236-252 | a bucket is pending exactly when its task is in the queue |
| `WorkQueueUnique.ContentsProper` | generic/work_queue_unique.c:192-255 | the contents are a set of known tasks and a queue without repetitions inside it |
| `WorkQueueUnique.Queue.constructor` | generic/work_queue_unique.c:159-178 | an empty queue |
| `WorkQueueUnique.Queue.FindTaskBucket` | generic/work_queue_unique.c:114-144 | binary search: the bucket, or the place where the order wants it |
| `WorkQueueUnique.Queue.NewBucket` | generic/work_queue_unique.c:207-225 | one more known task |
| `WorkQueueUnique.Queue.Enqueue` | generic/work_queue_unique.c:238-246 | the task is last, and there was room |
| `WorkQueueUnique.Queue.Add` | generic/work_queue_unique.c:192-255 | result and contents are those of the simple form |
| `WorkQueueUnique.Queue.PopFront` | generic/work_queue_unique.c:331-342 | the oldest task leaves and may be added again |
| `WorkQueueUnique.Queue.Serve` | generic/work_queue_unique.c:329-344 | tasks are called once per successful addition, in that order, with additions from interrupts and callbacks |
| `WorkQueueUnique.Queue.NothingIsLost` | generic/work_queue_unique.c:329-344 | when the queue is empty, every accepted task has been called |
| `UsbControl.PacketsShape` | usb/usb_control.c:558-587 | all packets but the last are full, the last is short, together they are the response |
| `UsbControl.HostRecovers` | usb/usb_control.c:558-587 | the host reads the response; it stops in front of the next one exactly when the response is shorter than asked for or ends with a short packet |
| `UsbControl.NextResponse` | usb/usb_control.c:558-587 | the response to the next request, which begins with a setup packet, is lost exactly when an empty packet was left and the endpoint retains it |
| `UsbControl.Control.ClearResponses` | usb/usb_control.c:440-445 | every pending request returns to the pool |
| `UsbControl.Control.PacketArrives` | usb/usb_control.c:447-515 | a setup packet finds the queue of the endpoint cleared or retained; then the packet has the effect of the simple form |
| `UsbControl.Control.HostTakes` | usb/usb_control.c:440-445 | the host takes what it reads from the queue |
| `UsbControl.Control.TwoRequests` | usb/usb_control.c:447-515 | of two requests in a row the first gets its response, and the second does exactly if no empty packet was left and retained |
| `UsbControl.FullPacketIsNotFinal` | usb/usb_control.c:558-568 | 64 bytes for a request of 64 bytes are such a response |
| `UsbControl.PacketAt` | usb/usb_control.c:570-586 | the bytes of every packet |
| `UsbControl.DataReachesDriver` | usb/usb_control.c:459-498 | whatever came before, a setup packet and chunks of wLength bytes call the driver once with the bytes in order |
| `UsbControl.OversizeIsDropped` | usb/usb_control.c:464-472 | data that does not fit never reaches the driver |
| `UsbControl.Control.constructor` | usb/usb_control.c:703-766 | all requests are free |
| `UsbControl.Control.ControlInHandler` | usb/usb_control.c:440-445 | the request returns to the pool |
| `UsbControl.Control.SendResponse` | usb/usb_control.c:558-587 | the whole response or nothing is queued |
| `UsbControl.Control.ControlOutHandler` | usb/usb_control.c:447-515 | a packet of the host has the effect of the simple form on data, calls and responses |
| `UsbControl.Control.CallDriver` | usb/usb_control.c:486-512 | the driver gets the complete data; its response is cut to wLength, its refusal stalls the endpoint |
| `UsbControl.Control.FullPayloadIsDropped` | usb/usb_control.c:558-568 | with all requests free a response is dropped exactly when it fills the payload buffer |
| `CompositeDevice.LengthWith` | usb/composite_device.c:421-425 | one driver more adds its own length and interfaces |
| `CompositeDevice.LengthWithout` | usb/composite_device.c:443-445 | one driver less subtracts them |
| `CompositeDevice.WalkRecovers` | usb/composite_device.c:120-156 | walking by the length byte recovers every descriptor |
| `CompositeDevice.HostReadsConfiguration` | usb/composite_device.c:120-156 | the host finds the header and the descriptors of the drivers in bind order, and wTotalLength is the end |
| `CompositeDevice.Device.constructor` | usb/composite_device.c:358-377 | an empty configuration |
| `CompositeDevice.Device.ComputeDescriptionProperties` | usb/composite_device.c:158-190 | length and interfaces of a table in 16 and 8 bits |
| `CompositeDevice.Device.Bind` | usb/composite_device.c:410-429 | the length stays the number of printed bytes; without memory nothing changes |
| `CompositeDevice.Device.Unbind` | usb/composite_device.c:431-446 | the length stays the number of printed bytes |
| `CompositeDevice.Device.ExtendConfigurationDescriptor` | usb/composite_device.c:192-222 | the selected descriptors are printed behind the position |
| `CompositeDevice.Device.PrintDrivers` | usb/composite_device.c:147-155 | all drivers are printed in bind order |
| `CompositeDevice.Device.GetConfiguration` | usb/composite_device.c:224-268 | the response has the announced length, and walking it ends there with every bound descriptor |
| `MscDispatch.AcceptedRange` | usb/msc.c:605-610 | an accepted block range lies on the medium exactly when its end did not wrap around |
| `MscDispatch.Msc.constructor` | usb/msc.c:1106-1161 | suspended until a reset |
| `MscDispatch.Msc.Reset` | usb/msc.c:1082-1098 | a reset starts one reception |
| `MscDispatch.Msc.IdleIsAnswered` | usb/msc.c:869-891 | whenever the next command is awaited, every accepted command has exactly one status block with its tag, in order |
| `MscDispatch.Msc.SendStatus` | usb/msc.c:781-790 | the status block carries the tag of the command |
| `MscDispatch.Msc.SendResponse` | usb/msc.c:898-924 | a response that fits comes with its status, a longer one is followed by a stall |
| `MscDispatch.Msc.IdleEnter` | usb/msc.c:176-187 | one reception is started |
| `MscDispatch.Msc.IdleRun` | usb/msc.c:189-256 | a block without signature changes nothing; one with a bad length is an error; any other is accepted and leads to the state of its command |
| `MscDispatch.Msc.TestUnitReadyEnter` | usb/msc.c:258-285 | attention is reported once: the command fails, sets the sense code and clears the flag |
| `MscDispatch.Msc.RequestSenseEnter` | usb/msc.c:287-323 | the sense code is reported and cleared |
| `MscDispatch.Msc.InformationEnter` | usb/msc.c:325-358 | an error exactly when no data is expected |
| `MscDispatch.Msc.MediumRemovalEnter` | usb/msc.c:360-392 | the lock follows the command |
| `MscDispatch.Msc.ReadFormatCapacitiesEnter` | usb/msc.c:473-507 | when it fails and when it is an error |
| `MscDispatch.Msc.ReadCapacityEnter` | usb/msc.c:509-547 | when it fails and when it is an error |
| `MscDispatch.Msc.SetupEnter` | usb/msc.c:549-620 | a transfer starts exactly for a present unit, the announced length and an accepted range; without wrap-around it stays on the medium |
| `MscDispatch.Msc.TransferEnter` | usb/msc.c:622-643 | the data path takes the transfer or the command fails |
| `MscDispatch.Msc.VerifyEnter` | usb/msc.c:645-683 | when a verification succeeds |
| `MscDispatch.Msc.StatusEnter` | usb/msc.c:825-853 | exactly one status block is issued on entry |
| `MscDispatch.Msc.ReadWriteRun` | usb/msc.c:436-471 | the status of the data path decides between acknowledgement, suspension and failure, and a failure leaves a sense code |
| `MscDispatch.Msc.AckStallRun` | usb/msc.c:798-817 | the status block follows the short response |
| `MscDispatch.Msc.Enter` | usb/msc.c:133-153 | every entry leads to a lower rank or rests |
| `MscDispatch.Msc.Run` | usb/msc.c:869-875 | the run functions of the resting states |
| `MscDispatch.Msc.Dispatch` | usb/msc.c:869-891 | the loop terminates in a resting state; one status block per command; a return to idle starts exactly one reception |

## Left out

- DmaRing.Channel.Append: the caller masks the interrupt that reports the end of the list, because the property is false otherwise; `InterruptedAppend` says exactly when.
- DmaRing.Channel.Disable: an interrupt that is pending while the channel is disabled, because its order against the register write is not visible in the source.
- DmaRing.Channel.Commit: the increment of the counter is one step, as a single instruction or a masked section makes it.
- DmaRing.Channel.InterruptHandler: two chunks that finish before the first interrupt is handled; the source relies on one interrupt per chunk.
- DmaRing.Channel.Residue: the result in the states Done and Error, in which no transfer is in progress.
- DmaRing.Channel.Rewind: recovery of data after a DMA fault; the list is only forgotten.
- I2sStream.Stream.DmaHandler: the failure of the oldest request after a DMA fault.
- I2sStream.Stream.Clear: an interrupt that is pending while the stream is cleared, as for `Disable`.
- I2sStream.Stream.Enqueue: clock, sample rate and pin setup of the interface.
- MscDatapath.Handler.CompleteRx: short packets of the host, which the source treats like full ones, and completions that arrive after a reported failure.
- MscDatapath.Handler.MakePingPongTransfer: the control reception of `datapathReceiveControl`, whose request does not return to the pool when it is cancelled; transfers start with all requests in the pool.
- MscDatapath.Handler.CompleteWrite: storage callbacks from inside the call that starts the operation, and storage blocks, which only the storage checks.
- MscDispatch.Msc.SendResponse: the residue of the status block, which is zero whenever the response fits, and the contents of the responses.
- MscDispatch.Msc.InformationEnter: the contents of the responses to INQUIRY and MODE SENSE.
- MscDispatch.Msc.IdleRun: the byte layout of the command blocks; they arrive decoded.
- TimerFactory.Factory.Create: changing the period or the mode of an existing timer, and periods of zero.
- TimerFactory.Factory.Callback: enabling a timer that has expired in the same tick and waits for its call. The source asserts against it for all but the last waiting timer; `TimerLinks.Links.EnableLastWaiting` says what happens for that one.
- TimerLinks.Links.CallWaiting: timers that the handler arms again after their call.
- TimerFactory.Factory.InterruptTickless: what follows a reading that is a period or more late for a continuous timer; the source asserts against it when it arms that timer again. Readings so late that the deadlines of the list cannot be compared any more.
- SdioSpi.Interface.SendCommandEnter: the bytes of the command and their checksum.
- SdioSpi.Interface.WriteBlocks: transfers of no data, for which the number of remaining bytes would wrap around.
- SdioSpi.Interface.ReadBlocks: transfers of no data, for which the number of remaining bytes would wrap around; aliasing of the memory of the transfer and of the checksum pool; both are sequences that are updated as a whole. Block sizes that are not a power of two are allowed.
- SdioSpi.Interface.Execute: command codes with the data mode flag, which belong to transfers; bus configuration, chip select and the bytes of the command with their checksum; checksums of data are an arbitrary function.
- SdioSpi.Interface.InterruptHandler: an event while the interface is idle.
- CardData.Card.ParseCardSpecificData: READ_BL_LEN below 9, as for `ParseSectorCount`.
- CardData.Card.ParseSectorCount: READ_BL_LEN below 9, for which the shift count has no defined meaning.
- MmcSd.Device.ExecuteCommand: the flags of the command and the copy of the response.
- MmcSd.Device.TransferBuffer: card identification and erase commands, which wait actively, and callbacks from inside a call that starts an operation.
- WorkQueueUnique.Queue.Serve: profiling and load counters, the stop flag and sleep.
- CompositeDevice.Device.Bind: a driver that is bound twice, since which entry the list erases is not part of this model; tables longer than the 16-bit and 8-bit counters.
- UsbControl.Control.CallDriver: standard requests that the control layer answers itself, and the list of strings.
- Register access, power management, cache maintenance, tracing, allocation, parameter accessors and static descriptor tables.
- Other drivers of the library, whose state machines are simpler than those above.
