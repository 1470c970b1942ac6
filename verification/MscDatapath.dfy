/**
 * Ping-pong data path of usb/msc_datapath.c. Two halves of a buffer rotate through a
 * pool, a queue of USB transfers and a queue of storage operations; every half is
 * split into packets over a bounded pool of USB requests.
 *
 * USB requests complete in order and with full length; storage operations complete at
 * any time. Both are steps of the environment.
 */
module MscDatapath {
  import opened Common
  import opened PingPong

  datatype UsbStatus = Completed | Cancelled | Broken

  class Handler {
    const memory: array<byte>
    const packetSize: nat
    const poolSize: nat
    const half: nat
    // The environment refuses nothing
    const reliable: bool

    var usbPool: nat
    var endpoint: seq<Request>
    var operation: Option<Operation>

    // Each query is referenced from one container only, so the containers hold the records
    var queryPool: seq<Query>
    var usbQueries: seq<Query>
    var storageQueries: seq<Query>
    var currentQueryLength: nat
    var currentQueryPosition: nat
    var currentStatus: Result

    // Statuses reported to the parent since the start of the transfer
    var reports: seq<Result>
    // Storage content, bytes the host sends, bytes received and bytes sent by the device
    var storage: seq<byte>
    var host: seq<byte>
    var received: nat
    var sent: seq<byte>

    // An environment operation was refused or failed; nothing is promised afterwards
    var failed: bool
    // Bytes of the front USB query whose packets have completed
    ghost var progress: nat
    // Storage range [start, goal) of the transfer and the end of its finished part
    ghost var start: nat
    ghost var goal: nat
    ghost var drained: nat
    // Storage position of the next byte to read from the storage
    ghost var fetched: nat
    // Storage content at the start of the transfer
    ghost var initial: seq<byte>

    /** Between transfers: every USB request is free and no storage operation runs. */
    ghost predicate Idle()
      reads this
    {
      && 0 < packetSize && 0 < poolSize && 0 < half && 2 * half <= memory.Length
      && usbPool == poolSize && endpoint == [] && operation == None
    }

    /** `datapathInit`: every USB request is in the pool. */
    constructor (buffer: array<byte>, packetSize: nat, poolSize: nat, content: seq<byte>, reliable: bool)
      requires 2 <= buffer.Length && 0 < packetSize && 0 < poolSize
      ensures Idle() && memory == buffer && half == buffer.Length / 2 && storage == content
      ensures this.packetSize == packetSize && this.poolSize == poolSize && this.reliable == reliable
    {
      memory, half, this.reliable := buffer, buffer.Length / 2, reliable;
      this.packetSize, this.poolSize, usbPool := packetSize, poolSize, poolSize;
      endpoint, operation, storage := [], None, content;
      queryPool, usbQueries, storageQueries := [], [], [];
    }

    ghost predicate Shape()
      reads this
    {
      && 0 < packetSize && 0 < poolSize && 0 < half && 2 * half <= memory.Length
      && |queryPool| + |usbQueries| + |storageQueries| == 2
      && Partition(queryPool, usbQueries, storageQueries, half)
    }

    ghost predicate Conserved()
      reads this
    {
      usbPool + |endpoint| == poolSize
    }

    ghost predicate UsbStage()
      reads this
    {
      if usbQueries == [] then endpoint == [] && progress == 0 else
        var query := usbQueries[0];
        && progress <= query.offset <= query.length && progress < query.length
        && Covers(endpoint, query.data, progress, query.offset, query.length, packetSize)
        && (|usbQueries| == 2 ==> usbQueries[1].offset == 0)
    }

    /** The front operation runs or waits for its start; the next one waits. */
    ghost predicate StorageStage()
      reads this
    {
      if storageQueries == [] then operation == None else
        var query := storageQueries[0];
        && 0 < query.length
        && (if operation == None then query.offset == 0 else
              operation == Some(Op(query)) && query.offset == query.length)
        && (|storageQueries| == 2 ==> storageQueries[1].offset == 0)
    }

    /** Queues a packet on the endpoint; the hardware may refuse it. */
    method EpEnqueue(request: Request) returns (res: Result)
      modifies this`endpoint, this`failed
      ensures res == E_OK ==> endpoint == old(endpoint) + [request] && failed == old(failed)
      ensures res != E_OK ==> endpoint == old(endpoint) && failed
      ensures reliable ==> failed == old(failed)
    {
      var accepted: bool := *;
      if accepted || reliable {
        endpoint := endpoint + [request];
        res := E_OK;
      } else {
        failed := true;
        res := E_ERROR;
      }
    }

    /**
     * `enqueueUsbRx` and `enqueueUsbTx`: splits [position, position + length) into
     * packets until the range or the pool is exhausted.
     */
    method EnqueueUsb(buffer: nat, length: nat, ghost query: Query) returns (ok: bool, queued: nat)
      requires 0 < packetSize && Conserved()
      requires query.offset <= query.length && progress <= query.length
      requires buffer == query.data + query.offset && length == query.length - query.offset
      requires Covers(endpoint, query.data, progress, query.offset, query.length, packetSize)
      modifies this`usbPool, this`endpoint, this`failed
      ensures Conserved()
      ensures ok ==> failed == old(failed) && queued <= length && (usbPool == 0 || queued == length)
      ensures ok ==> Covers(endpoint, query.data, progress, query.offset + queued, query.length, packetSize)
      ensures !ok ==> failed
      ensures reliable ==> failed == old(failed)
    {
      hide Covers;
      var position, left := buffer, length;
      while 0 < usbPool && 0 < left
        invariant Conserved() && failed == old(failed)
        invariant position + left == buffer + length && buffer <= position && 0 <= left
        invariant Covers(endpoint, query.data, progress, position - query.data, query.length, packetSize)
      {
        usbPool := usbPool - 1;
        var prepared := Min(left, packetSize);
        var request := Request(position, prepared, prepared == left);
        CoversExtends(endpoint, query.data, progress, position - query.data, query.length, packetSize);
        var res := EpEnqueue(request);
        if res == E_OK {
          left := left - prepared;
          position := position + prepared;
        } else {
          usbPool := usbPool + 1;
          return false, 0;
        }
      }
      return true, position - buffer;
    }

    /** `enqueueUsbRxRequests` and `enqueueUsbTxRequests` on the front USB query. */
    method EnqueueRequests() returns (ok: bool)
      requires Shape() && Conserved() && UsbStage() && usbQueries != []
      modifies this`usbPool, this`endpoint, this`failed, this`usbQueries
      ensures Shape() && Conserved()
      ensures ok ==> failed == old(failed) && UsbStage()
      ensures ok ==> usbPool == 0 || usbQueries[0].offset == usbQueries[0].length
      ensures |usbQueries| == |old(usbQueries)|
      ensures usbQueries == old(usbQueries)[0 := old(usbQueries)[0].(offset := usbQueries[0].offset)]
      ensures !ok ==> failed
      ensures reliable ==> failed == old(failed)
    {
      var query := usbQueries[0];
      if query.length == query.offset {
        return true;
      }
      var queued;
      ok, queued := EnqueueUsb(query.data + query.offset, query.length - query.offset, query);
      if ok {
        usbQueries := usbQueries[0 := query.(offset := query.offset + queued)];
      }
    }

    /** Takes the youngest free query and gives it the next part of the range. */
    method TakeQuery() returns (query: Query)
      requires Shape() && queryPool != [] && 0 < currentQueryLength
      modifies this`queryPool, this`currentQueryLength, this`currentQueryPosition
      ensures queryPool == old(queryPool)[..|old(queryPool)| - 1]
      ensures query.data == old(queryPool)[|old(queryPool)| - 1].data && query.capacity == half
      ensures query.offset == 0 && Tile(query, old(currentQueryPosition), currentQueryPosition)
      ensures currentQueryPosition + currentQueryLength == old(currentQueryPosition + currentQueryLength)
    {
      query := queryPool[|queryPool| - 1];
      queryPool := queryPool[..|queryPool| - 1];
      query := query.(
        position := currentQueryPosition,
        length := Min(query.capacity, currentQueryLength),
        offset := 0);
      currentQueryLength := currentQueryLength - query.length;
      currentQueryPosition := currentQueryPosition + query.length;
    }

    method FillUsbReadQueue()
      requires Shape() && UsbStage()
      requires Tiles(storageQueries + usbQueries, drained, currentQueryPosition)
      modifies this`queryPool, this`usbQueries, this`currentQueryLength, this`currentQueryPosition
      ensures Shape() && UsbStage()
      ensures Tiles(storageQueries + usbQueries, drained, currentQueryPosition)
      ensures currentQueryPosition + currentQueryLength == old(currentQueryPosition + currentQueryLength)
      ensures old(usbQueries) <= usbQueries
      ensures queryPool == [] || currentQueryLength == 0
    {
      hide Partition, Tiles;
      while 0 < currentQueryLength && queryPool != []
        invariant Shape() && UsbStage()
        invariant Tiles(storageQueries + usbQueries, drained, currentQueryPosition)
        invariant currentQueryPosition + currentQueryLength == old(currentQueryPosition + currentQueryLength)
        invariant old(usbQueries) <= usbQueries
        decreases |queryPool|
      {
        ghost var pool, middle := queryPool, currentQueryPosition;
        var query := TakeQuery();
        PartitionMoves(pool, usbQueries, storageQueries, half, query);
        TilesExtend(storageQueries + usbQueries, drained, middle, query, currentQueryPosition);
        assert storageQueries + usbQueries + [query] == storageQueries + (usbQueries + [query]);
        usbQueries := usbQueries + [query];
      }
    }

    method FillStorageReadQueue()
      requires Shape() && StorageStage()
      requires Tiles(usbQueries + storageQueries, drained, currentQueryPosition)
      modifies this`queryPool, this`storageQueries, this`currentQueryLength, this`currentQueryPosition
      ensures Shape() && StorageStage()
      ensures Tiles(usbQueries + storageQueries, drained, currentQueryPosition)
      ensures currentQueryPosition + currentQueryLength == old(currentQueryPosition + currentQueryLength)
      ensures old(storageQueries) <= storageQueries
      ensures queryPool == [] || currentQueryLength == 0
    {
      hide Partition, Tiles;
      while 0 < currentQueryLength && queryPool != []
        invariant Shape() && StorageStage()
        invariant Tiles(usbQueries + storageQueries, drained, currentQueryPosition)
        invariant currentQueryPosition + currentQueryLength == old(currentQueryPosition + currentQueryLength)
        invariant old(storageQueries) <= storageQueries
        decreases |queryPool|
      {
        ghost var pool, middle := queryPool, currentQueryPosition;
        var query := TakeQuery();
        PartitionMoves(pool, usbQueries, storageQueries, half, query);
        TilesExtend(usbQueries + storageQueries, drained, middle, query, currentQueryPosition);
        assert usbQueries + storageQueries + [query] == usbQueries + (storageQueries + [query]);
        storageQueries := storageQueries + [query];
      }
    }

    /** Starts a storage operation; the interface may refuse it. */
    method StartOperation(query: Query) returns (ok: bool)
      modifies this`operation, this`failed
      ensures ok ==> operation == Some(Op(query)) && failed == old(failed)
      ensures !ok ==> operation == old(operation) && failed
      ensures reliable ==> failed == old(failed)
    {
      var accepted: bool := *;
      if accepted || reliable {
        operation := Some(Op(query));
        ok := true;
      } else {
        failed := true;
        ok := false;
      }
    }

    method Report(status: Result)
      modifies this`currentStatus, this`reports
      ensures currentStatus == status && reports == old(reports) + [status]
    {
      currentStatus := status;
      reports := reports + [status];
    }

    /** The halves in use tile the unfinished part of the range, in the given order. */
    ghost predicate Ranges(order: seq<Query>)
      reads this
    {
      && Shape() && UsbStage() && StorageStage()
      && Tiles(order, drained, currentQueryPosition)
      && currentQueryPosition + currentQueryLength == goal
    }

    ghost predicate Flowing(order: seq<Query>)
      reads this
    {
      Ranges(order) && Conserved()
    }

    ghost predicate Unreported()
      reads this
    {
      !failed && reports == [] && currentStatus == E_BUSY
    }

    /** Nothing can be taken from the pool and no storage query waits for its start. */
    ghost predicate Resting()
      reads this
    {
      && (queryPool == [] || currentQueryLength == 0)
      && (storageQueries != [] ==> operation.Some?)
    }

    ghost predicate Finished()
      reads this
    {
      |queryPool| == 2 && currentQueryLength == 0
    }

    /** Every stage that can work does, and completion has been reported exactly once. */
    ghost predicate Settled()
      reads this
    {
      && !failed && Resting()
      && (usbQueries != [] ==> endpoint != [])
      && reports == (if Finished() then [E_OK] else [])
      && currentStatus == (if Finished() then E_OK else E_BUSY)
    }

    /** After an enqueue the front USB query has a packet outstanding. */
    lemma PacketsOutstanding()
      requires Shape() && Conserved() && UsbStage() && usbQueries != []
      requires usbPool == 0 || usbQueries[0].offset == usbQueries[0].length
      ensures endpoint != []
    {
      var query := usbQueries[0];
      CoversWithin(endpoint, query.data, progress, query.offset, query.length, packetSize);
    }

    /** Queues packets of the front USB query, if there is one. */
    method AdvanceUsb() returns (ok: bool)
      requires Shape() && Conserved() && UsbStage()
      modifies this`usbPool, this`endpoint, this`failed, this`usbQueries
      ensures Shape() && Conserved() && SameRanges(old(usbQueries), usbQueries)
      ensures ok ==> failed == old(failed) && UsbStage() && (usbQueries != [] ==> endpoint != [])
      ensures !ok ==> failed
      ensures reliable ==> failed == old(failed)
    {
      ok := true;
      if usbQueries != [] {
        ok := EnqueueRequests();
        if ok {
          PacketsOutstanding();
        }
      }
    }

    /** Starts the operation of the front storage query unless it is running. */
    method AdvanceStorage() returns (ok: bool)
      requires Shape() && StorageStage()
      modifies this`operation, this`failed, this`storageQueries
      ensures Shape() && SameRanges(old(storageQueries), storageQueries)
      ensures ok ==> failed == old(failed) && StorageStage()
      ensures ok ==> (storageQueries != [] ==> operation.Some?)
      ensures !ok ==> failed
      ensures reliable ==> failed == old(failed)
    {
      ok := true;
      if storageQueries != [] {
        var query := storageQueries[0];
        if query.offset != query.length {
          ok := StartOperation(query);
          if ok {
            storageQueries := storageQueries[0 := query.(offset := query.length)];
          }
        }
      }
    }

    /** The part shared by both flows: every stage that can work starts to. */
    method AdvanceStages() returns (ok: bool)
      requires Shape() && Conserved() && UsbStage() && StorageStage()
      modifies this`operation, this`failed, this`usbPool, this`endpoint
      modifies this`usbQueries, this`storageQueries
      ensures Shape() && Conserved()
      ensures SameRanges(old(usbQueries), usbQueries)
      ensures SameRanges(old(storageQueries), storageQueries)
      ensures ok ==> failed == old(failed) && UsbStage() && StorageStage()
      ensures ok ==> (usbQueries != [] ==> endpoint != [])
      ensures ok ==> (storageQueries != [] ==> operation.Some?)
      ensures !ok ==> failed
      ensures reliable ==> failed == old(failed)
    {
      hide Partition, Tiles, Covers;
      ok := AdvanceUsb();
      if ok {
        ok := AdvanceStorage();
      }
    }

    /** Both flows after their fill loop: the stages advance and the outcome is reported. */
    method AdvanceAndReport()
      requires Unreported() && Shape() && Conserved() && UsbStage() && StorageStage()
      requires queryPool == [] || currentQueryLength == 0
      modifies this`operation, this`failed, this`usbPool, this`endpoint
      modifies this`usbQueries, this`storageQueries, this`currentStatus, this`reports
      ensures Shape() && Conserved()
      ensures SameRanges(old(usbQueries), usbQueries)
      ensures SameRanges(old(storageQueries), storageQueries)
      ensures !failed ==> UsbStage() && StorageStage() && Settled()
      ensures failed ==> reports == [E_INTERFACE] && currentStatus == E_INTERFACE
      ensures reliable ==> failed == old(failed)
    {
      hide Partition, Tiles, Covers, SameRanges;
      var ok := AdvanceStages();
      if !ok {
        Report(E_INTERFACE);
        return;
      }
      if |queryPool| == 2 && currentQueryLength == 0 {
        Report(E_OK);
      }
    }

    /** `handleIncomingFlow`. */
    method HandleIncomingFlow()
      requires Unreported()
      requires Flowing(storageQueries + usbQueries)
      modifies this`queryPool, this`usbQueries, this`storageQueries, this`operation, this`usbPool, this`endpoint
      modifies this`currentQueryLength, this`currentQueryPosition, this`currentStatus, this`reports, this`failed
      ensures Conserved()
      ensures !failed ==> Flowing(storageQueries + usbQueries) && Settled()
      ensures !failed ==> SameRanges(old(storageQueries), storageQueries)
      ensures !failed ==> Extends(old(usbQueries), usbQueries)
      ensures failed ==> reports == [E_INTERFACE] && currentStatus == E_INTERFACE
      ensures reliable ==> failed == old(failed)
    {
      hide Partition, Tiles, Covers, SameRanges, Extends, Settled;
      FillUsbReadQueue();
      ghost var usb, waiting, next := usbQueries, storageQueries, currentQueryPosition;
      AdvanceAndReport();
      FlowIgnoresOffsets(waiting, usb, storageQueries, usbQueries, drained, next);
      ExtendsThrough(old(usbQueries), usb, usbQueries);
    }

    /** `handleOutgoingFlow`. */
    method HandleOutgoingFlow()
      requires Unreported()
      requires Flowing(usbQueries + storageQueries)
      modifies this`queryPool, this`usbQueries, this`storageQueries, this`operation, this`usbPool, this`endpoint
      modifies this`currentQueryLength, this`currentQueryPosition, this`currentStatus, this`reports, this`failed
      ensures Conserved()
      ensures !failed ==> Flowing(usbQueries + storageQueries) && Settled()
      ensures !failed ==> SameRanges(old(usbQueries), usbQueries)
      ensures !failed ==> Extends(old(storageQueries), storageQueries)
      ensures failed ==> reports == [E_INTERFACE] && currentStatus == E_INTERFACE
      ensures reliable ==> failed == old(failed)
    {
      hide Partition, Tiles, Covers, SameRanges, Extends, Settled;
      FillStorageReadQueue();
      ghost var usb, waiting, next := usbQueries, storageQueries, currentQueryPosition;
      AdvanceAndReport();
      FlowIgnoresOffsets(usb, waiting, usbQueries, storageQueries, drained, next);
      ExtendsThrough(old(storageQueries), waiting, storageQueries);
    }

    /** Bytes arrive in memory, from the host or from the storage. */
    method Receive(at: nat, bytes: seq<byte>)
      requires at + |bytes| <= memory.Length
      modifies memory
      ensures memory[..] == Overwrite(old(memory[..]), at, bytes)
    {
      forall i | 0 <= i < |bytes| {
        memory[at + i] := bytes[i];
      }
    }

    twostate predicate SameTransfer()
      reads this
    {
      start == old(start) && goal == old(goal) && host == old(host) && initial == old(initial)
    }

    /** No byte has moved. */
    twostate predicate SameContent()
      reads this
    {
      storage == old(storage) && sent == old(sent)
    }

    // Host to storage

    ghost predicate IncomingData()
      reads this, memory
    {
      && start <= drained <= goal <= |initial| && |host| == goal - start
      && start + received == Front(usbQueries, currentQueryPosition) + progress
      && HoldsHost(memory[..], host, start, usbQueries, storageQueries, progress)
      && storage == Patched(initial, start, drained, host)
    }

    /** Invariant of a transfer from the host to the storage. */
    ghost predicate Incoming()
      reads this, memory
    {
      Flowing(storageQueries + usbQueries) && Settled() && IncomingData()
    }

    /** `handleIncomingFlow` leaves the received bytes alone. */
    method ContinueIncoming()
      requires Unreported() && Flowing(storageQueries + usbQueries) && IncomingData()
      modifies this
      ensures Conserved() && (!failed ==> Incoming())
      ensures SameTransfer() && drained == old(drained) && received == old(received)
      ensures reliable ==> failed == old(failed)
      ensures SameContent()
    {
      hide Partition, Tiles, Covers, HoldsHost;
      ghost var usb, waiting, next := usbQueries, storageQueries, currentQueryPosition;
      HandleIncomingFlow();
      if !failed {
        assert forall query | query in usbQueries :: query.data <= 2 * half by { HalvesAreLow(); }
        HoldsHostKept(memory[..], host, start, drained, progress, usb, waiting, next,
                      usbQueries, storageQueries, currentQueryPosition, 2 * half);
      }
    }

    lemma HalvesAreLow()
      requires Shape()
      ensures forall query | query in usbQueries || query in storageQueries :: query.data <= half
    {
    }

    /** A packet in the middle of a half: the pipeline continues above the watermark. */
    method UsbRxSilentCallback(status: UsbStatus)
      requires usbPool + |endpoint| + 1 == poolSize
      requires status == Completed ==> Unreported() && Resting() && usbQueries != [] && IncomingData()
      requires status == Completed ==> Ranges(storageQueries + usbQueries)
      modifies this
      ensures Conserved() && SameTransfer() && SameContent() && drained == old(drained) && received == old(received)
      ensures status == Completed && !failed ==> Incoming()
      ensures status != Completed ==> failed == old(failed)
      ensures status == Broken ==> reports == old(reports) + [E_ERROR]
      ensures reliable ==> failed == old(failed)
    {
      hide Partition, Covers, Tiles, HoldsHost;
      usbPool := usbPool + 1;
      if status == Completed {
        var watermark := poolSize / 2;
        if watermark <= usbPool {
          ContinueIncoming();
        }
      } else if status != Cancelled {
        Report(E_ERROR);
      }
    }

    /** The front USB query has received its last packet. */
    ghost predicate HalfReceived()
      reads this, memory
    {
      && Shape() && StorageStage() && IncomingData() && usbQueries != [] && endpoint == []
      && Tiles(storageQueries + usbQueries, drained, currentQueryPosition)
      && currentQueryPosition + currentQueryLength == goal
      && progress == usbQueries[0].length
      && (|usbQueries| == 2 ==> usbQueries[1].offset == 0)
    }

    method PassToStorage()
      requires HalfReceived()
      modifies this`usbQueries, this`storageQueries, this`progress
      ensures Ranges(storageQueries + usbQueries) && IncomingData()
    {
      hide Partition, Tiles, HoldsHost;
      HalfSize(queryPool, usbQueries, storageQueries, half);
      PartitionPasses(queryPool, usbQueries, storageQueries, half);
      TilesPass(usbQueries, storageQueries, drained, currentQueryPosition);
      HalfArrives(memory[..], host, start, drained, currentQueryPosition, usbQueries, storageQueries);
      var query := usbQueries[0];
      usbQueries := usbQueries[1..];
      query := query.(offset := 0);
      storageQueries := storageQueries + [query];
      progress := 0;
    }

    /** The last packet of a half: the half moves on to the storage. */
    method UsbRxLastCallback(status: UsbStatus)
      requires usbPool + |endpoint| + 1 == poolSize
      requires status == Completed ==> Unreported() && HalfReceived()
      modifies this
      ensures Conserved() && SameTransfer() && SameContent() && drained == old(drained) && received == old(received)
      ensures status == Completed && !failed ==> Incoming()
      ensures status != Completed ==> failed == old(failed)
      ensures status == Broken ==> reports == old(reports) + [E_ERROR]
      ensures reliable ==> failed == old(failed)
    {
      hide Partition, Tiles, Covers, HoldsHost;
      usbPool := usbPool + 1;
      if status == Completed {
        PassToStorage();
        ContinueIncoming();
      } else if status != Cancelled {
        Report(E_ERROR);
      }
    }

    /** The bytes of a packet arrive in the front half. */
    method PacketReceived(request: Request)
      requires Ranges(storageQueries + usbQueries) && IncomingData() && usbQueries != []
      requires request.buffer == usbQueries[0].data + progress
      requires progress + request.capacity <= usbQueries[0].offset
      modifies this`received, memory
      ensures received == old(received) + request.capacity
      ensures Copied(old(memory[..]), memory[..], request.buffer, host, old(received), request.capacity)
      ensures HoldsHost(memory[..], host, start, usbQueries, storageQueries, progress + request.capacity)
    {
      hide Partition, Tiles, HoldsHost, Covers;
      PacketArrives(memory[..], host, start, drained, currentQueryPosition, progress, request.capacity,
                    queryPool, usbQueries, storageQueries, half);
      Receive(request.buffer, host[received..received + request.capacity]);
      received := received + request.capacity;
    }

    /** The oldest packet is filled by the host and leaves the endpoint. */
    method AcceptPacket(status: UsbStatus) returns (request: Request)
      requires Incoming() && endpoint != []
      modifies this`endpoint, this`progress, this`failed, this`received, memory
      ensures usbPool + |endpoint| + 1 == poolSize && SameTransfer()
      ensures failed == (status != Completed) && request == old(endpoint)[0]
      ensures status != Completed ==> memory[..] == old(memory[..])
      ensures status == Completed ==>
                && Unreported() && old(received) < received
                && Copied(old(memory[..]), memory[..], request.buffer, host, old(received), request.capacity)
      ensures status == Completed && request.last ==> HalfReceived()
      ensures status == Completed && !request.last ==>
                Resting() && usbQueries != [] && IncomingData() && Ranges(storageQueries + usbQueries)
    {
      hide Partition, Tiles, HoldsHost, Covers;
      CoversFirst(endpoint, usbQueries[0].data, progress, usbQueries[0].offset, usbQueries[0].length, packetSize);
      request := endpoint[0];
      if status == Completed {
        PacketReceived(request);
        endpoint, progress := endpoint[1..], progress + request.capacity;
      } else {
        endpoint, failed := endpoint[1..], true;
      }
    }

    /** Environment: the oldest packet of the host has arrived, or could not. */
    method CompleteRx(status: UsbStatus)
      requires Incoming() && endpoint != []
      modifies this, memory
      ensures Conserved() && SameTransfer() && drained == old(drained)
      ensures status != Completed ==> failed && memory[..] == old(memory[..])
      ensures status == Completed ==>
                Copied(old(memory[..]), memory[..], old(endpoint)[0].buffer, host, old(received), old(endpoint)[0].capacity)
      ensures SameContent()
      ensures !failed ==> Incoming() && old(received) < received
      ensures reliable && status == Completed ==> !failed
    {
      hide Incoming, HalfReceived, Ranges, IncomingData, Resting, Unreported;
      var request := AcceptPacket(status);
      if request.last {
        UsbRxLastCallback(status);
      } else {
        UsbRxSilentCallback(status);
      }
    }

    /** The content of the front storage half has reached the storage. */
    ghost predicate HalfWrittenOut()
      reads this, memory
    {
      && Shape() && UsbStage() && storageQueries != [] && operation == None
      && (|storageQueries| == 2 ==> storageQueries[1].offset == 0)
      && Tiles(storageQueries + usbQueries, drained, currentQueryPosition)
      && currentQueryPosition + currentQueryLength == goal
      && start <= drained && drained + storageQueries[0].length <= goal <= |initial| && |host| == goal - start
      && start + received == Front(usbQueries, currentQueryPosition) + progress
      && HoldsHost(memory[..], host, start, usbQueries, storageQueries, progress)
      && storage == Patched(initial, start, drained + storageQueries[0].length, host)
    }

    method ReturnFromStorage()
      requires HalfWrittenOut()
      modifies this`queryPool, this`storageQueries, this`drained
      ensures Ranges(storageQueries + usbQueries) && IncomingData() && drained > old(drained)
    {
      hide Partition, Tiles, HoldsHost, Patched, Holds;
      TilesFinish(storageQueries, usbQueries, drained, currentQueryPosition);
      PartitionReturns(queryPool, storageQueries, usbQueries, half);
      HoldsHostRest(memory[..], host, start, usbQueries, storageQueries, progress);
      var query := storageQueries[0];
      storageQueries := storageQueries[1..];
      queryPool := queryPool + [query];
      drained := drained + query.length;
    }

    /** A completed storage write: its query returns to the pool. */
    method StorageWriteCallback(ok: bool)
      requires Conserved() && (ok ==> Unreported() && HalfWrittenOut())
      modifies this
      ensures Conserved() && SameTransfer() && SameContent() && received == old(received)
      ensures ok && !failed ==> Incoming() && old(drained) < drained
      ensures !ok ==> failed == old(failed) && reports == old(reports) + [E_INTERFACE]
      ensures reliable ==> failed == old(failed)
    {
      hide Partition, Tiles, HoldsHost, Covers, HalfWrittenOut;
      if !ok {
        Report(E_INTERFACE);
      } else {
        ReturnFromStorage();
        ContinueIncoming();
      }
    }

    /** The storage takes the content of the half. */
    method Store(query: Query)
      requires Ranges(storageQueries + usbQueries) && IncomingData()
      requires storageQueries != [] && query == storageQueries[0]
      modifies this`storage
      ensures drained == query.position && drained + query.length <= goal
      ensures Copied(old(storage), storage, query.position, memory[..], query.data, query.length)
      ensures storage == Patched(initial, start, drained + query.length, host)
    {
      hide Partition, Tiles, HoldsHost, Patched, Overwrite, Holds;
      TilesFinish(storageQueries, usbQueries, drained, currentQueryPosition);
      HoldsHostRest(memory[..], host, start, usbQueries, storageQueries, progress);
      HoldsFits(memory[..], query.data, query.length, host, query.position - start);
      HalfWritten(memory[..], initial, host, start, drained, query.data, query.length);
      storage := Overwrite(storage, query.position, memory[query.data..query.data + query.length]);
    }

    /** Environment: the storage operation in progress ends. */
    method CompleteWrite(ok: bool)
      requires Incoming() && operation.Some?
      modifies this
      ensures Conserved() && SameTransfer() && received == old(received)
      ensures !ok ==> failed && storage == old(storage)
      ensures ok ==>
                var task := old(operation).value;
                Copied(old(storage), storage, task.position, memory[..], task.data, task.length)
      ensures !failed ==> Incoming() && old(drained) < drained
      ensures reliable && ok ==> !failed
    {
      hide Partition, Tiles, HoldsHost, Covers, Patched;
      if ok {
        Store(storageQueries[0]);
      } else {
        failed := true;
      }
      operation := None;
      StorageWriteCallback(ok);
    }

    /** `makePingPongTransfer`. */
    method MakePingPongTransfer(storagePosition: nat, transferLength: nat)
      modifies this`queryPool, this`usbQueries, this`storageQueries, this`currentQueryLength, this`currentQueryPosition
      modifies this`currentStatus, this`reports, this`failed, this`progress, this`start, this`goal, this`drained
      ensures queryPool == [Query(0, 0, half, 0, 0), Query(0, half, half, 0, 0)]
      ensures usbQueries == [] && storageQueries == [] && progress == 0
      ensures start == drained == currentQueryPosition == storagePosition
      ensures currentQueryLength == transferLength && goal == storagePosition + transferLength
      ensures Unreported()
    {
      usbQueries := [];
      storageQueries := [];
      currentStatus := E_BUSY;
      currentQueryLength := transferLength;
      currentQueryPosition := storagePosition;
      queryPool := [Query(0, 0, half, 0, 0), Query(0, half, half, 0, 0)];

      reports, failed, progress := [], false, 0;
      start, goal, drained := storagePosition, storagePosition + transferLength, storagePosition;
    }

    /** The pool after `makePingPongTransfer` supports both directions. */
    lemma FreshTransfer()
      requires Idle() && usbQueries == [] && storageQueries == [] && progress == 0
      requires queryPool == [Query(0, 0, half, 0, 0), Query(0, half, half, 0, 0)]
      requires drained == currentQueryPosition
      ensures Shape() && UsbStage() && StorageStage() && Conserved()
      ensures Tiles(storageQueries + usbQueries, drained, currentQueryPosition)
      ensures Tiles(usbQueries + storageQueries, drained, currentQueryPosition)
    {
      FreshHalves(half);
    }

    /** The first half of the range is on its way to the USB queue. */
    method PrepareIncoming(storagePosition: nat, transferLength: nat)
      requires Idle() && 0 < transferLength
      modifies this`queryPool, this`usbQueries, this`storageQueries, this`currentQueryLength, this`currentQueryPosition
      modifies this`currentStatus, this`reports, this`failed, this`progress, this`start, this`goal, this`drained
      ensures Flowing(storageQueries + usbQueries) && Unreported() && (queryPool == [] || currentQueryLength == 0)
      ensures storageQueries == [] && usbQueries != [] && usbQueries[0].position == start && usbQueries[0].data <= half
      ensures start == drained == storagePosition && progress == 0
      ensures goal == storagePosition + transferLength
    {
      hide Partition, Covers, Tiles;
      MakePingPongTransfer(storagePosition, transferLength);
      FreshTransfer();
      FillUsbReadQueue();
      assert storageQueries + usbQueries == usbQueries;
      TilesFront(usbQueries, drained, currentQueryPosition);
      HalfSize(queryPool, usbQueries, storageQueries, half);
    }

    /** The first packets of a transfer from the host. */
    method StartUsb() returns (ok: bool)
      requires Flowing(storageQueries + usbQueries) && usbQueries != []
      modifies this`usbPool, this`endpoint, this`failed, this`usbQueries
      ensures ok ==> failed == old(failed) && Flowing(storageQueries + usbQueries) && endpoint != []
      ensures |usbQueries| == |old(usbQueries)|
      ensures usbQueries == old(usbQueries)[0 := old(usbQueries)[0].(offset := usbQueries[0].offset)]
      ensures !ok ==> failed
      ensures reliable ==> failed == old(failed)
    {
      hide Partition, Covers, Tiles;
      ghost var usb := usbQueries;
      ok := EnqueueRequests();
      if ok {
        PacketsOutstanding();
        TilesIgnoreOffsets(storageQueries + usb, storageQueries + usbQueries, drained, currentQueryPosition);
      }
    }

    /** `datapathReceiveAndWriteData`. */
    method ReceiveAndWriteData(storagePosition: nat, transferLength: nat, bytes: seq<byte>) returns (ok: bool)
      requires Idle() && 0 < transferLength == |bytes| && storagePosition + transferLength <= |storage|
      modifies this
      ensures storage == old(storage) && host == bytes && initial == old(storage)
      ensures start == storagePosition && goal == storagePosition + transferLength
      ensures ok ==> !failed && Incoming() && received == 0 && drained == start
      ensures !ok ==> failed
      ensures reliable ==> ok
    {
      hide Partition, Covers, Holds, Tiles;
      PrepareIncoming(storagePosition, transferLength);
      host, received, initial := bytes, 0, storage;
      HoldsNothing(memory[..], usbQueries[0].data, host, 0);
      ok := StartUsb();
    }

    /** No packet of the host targets the half that the storage operation reads. */
    lemma PacketsAvoidOperation(packet: Request)
      requires Ranges(storageQueries + usbQueries)
      requires packet in endpoint && operation.Some?
      ensures packet.buffer + packet.capacity <= operation.value.data
           || operation.value.data + operation.value.length <= packet.buffer
    {
      var query := usbQueries[0];
      FrontFits(queryPool, usbQueries, storageQueries, half, drained, currentQueryPosition);
      CoversWithin(endpoint, query.data, progress, query.offset, query.length, packetSize);
      HalvesApart(queryPool, usbQueries, storageQueries, half, query, storageQueries[0]);
    }

    /** An unfinished transfer always waits for the host, the storage or both. */
    lemma Waiting(order: seq<Query>)
      requires order == storageQueries + usbQueries || order == usbQueries + storageQueries
      requires Flowing(order) && Settled()
      ensures Finished() <==> endpoint == [] && operation == None
    {
    }

    /** A finished transfer has moved every byte. */
    lemma Delivered()
      requires Incoming() && Finished()
      ensures reports == [E_OK] && currentStatus == E_OK && Idle()
      ensures received == |host| && drained == goal
      ensures storage == Overwrite(initial, start, host)
    {
    }

    /** Bytes still to receive and bytes still to write. */
    ghost function Unmoved(): nat
      reads this
    {
      if received <= |host| && drained <= goal then |host| - received + goal - drained else 0
    }

    lemma MovedSoFar(ok: bool)
      requires ok ==> Incoming()
      ensures ok ==> received <= |host| && drained <= goal
    {
    }

    /** Runs a transfer from the host against every order of completions. */
    method WriteTransfer(storagePosition: nat, bytes: seq<byte>) returns (ok: bool)
      requires Idle() && bytes != [] && storagePosition + |bytes| <= |storage|
      modifies this, memory
      ensures ok ==> reports == [E_OK] && currentStatus == E_OK && Idle()
      ensures ok ==> storage == Overwrite(old(storage), storagePosition, bytes)
      ensures !ok ==> failed
      ensures reliable ==> ok
    {
      hide Flowing, Settled, IncomingData, Overwrite;
      ok := ReceiveAndWriteData(storagePosition, |bytes|, bytes);
      MovedSoFar(ok);
      while ok && (endpoint != [] || operation.Some?)
        invariant ok ==> !failed && Incoming() && received <= |host| && drained <= goal
        invariant (!ok ==> failed) && (reliable ==> ok)
        invariant host == bytes && initial == old(storage) && start == storagePosition
        invariant goal == storagePosition + |bytes|
        decreases if ok then 1 + Unmoved() else 0
      {
        var usbFirst: bool := *;
        if endpoint != [] && (usbFirst || operation.None?) {
          var status: UsbStatus := *;
          CompleteRx(if reliable then Completed else status);
        } else {
          var written: bool := *;
          CompleteWrite(written || reliable);
        }
        ok := !failed;
        MovedSoFar(ok);
      }
      if ok {
        Waiting(storageQueries + usbQueries);
        Delivered();
      }
    }

    // Storage to host

    ghost predicate OutgoingData()
      reads this, memory
    {
      && start <= drained <= goal <= |storage| && storage == initial
      && drained + progress <= goal
      && fetched == Front(storageQueries, currentQueryPosition) <= goal
      && sent == storage[start..drained + progress]
      && HoldsRanges(memory[..], storage, usbQueries)
    }

    /** Invariant of a transfer from the storage to the host. */
    ghost predicate Outgoing()
      reads this, memory
    {
      Flowing(usbQueries + storageQueries) && Settled() && OutgoingData()
    }

    /** `handleOutgoingFlow` leaves the bytes read so far alone. */
    method ContinueOutgoing()
      requires Unreported() && Flowing(usbQueries + storageQueries) && OutgoingData()
      modifies this
      ensures Conserved() && (!failed ==> Outgoing())
      ensures SameTransfer() && drained == old(drained) && progress == old(progress) && fetched == old(fetched)
      ensures reliable ==> failed == old(failed)
      ensures SameContent()
    {
      hide Partition, Tiles, Covers, HoldsRanges, SameRanges, Extends;
      ghost var usb, waiting, next := usbQueries, storageQueries, currentQueryPosition;
      HandleOutgoingFlow();
      if !failed {
        HoldsRangesKept(memory[..], storage, usb, usbQueries);
        FrontKept(usb, waiting, drained, next, usbQueries, storageQueries, currentQueryPosition);
        TilesSplit(usbQueries, storageQueries, drained, currentQueryPosition);
      }
    }

    /** A packet in the middle of a half: the pipeline continues above the watermark. */
    method UsbTxSilentCallback(status: UsbStatus)
      requires usbPool + |endpoint| + 1 == poolSize
      requires status == Completed ==> Unreported() && Resting() && usbQueries != [] && OutgoingData()
      requires status == Completed ==> Ranges(usbQueries + storageQueries)
      modifies this
      ensures Conserved() && SameTransfer() && SameContent() && fetched == old(fetched)
      ensures drained == old(drained) && progress == old(progress)
      ensures status == Completed && !failed ==> Outgoing()
      ensures status != Completed ==> failed == old(failed)
      ensures status == Broken ==> reports == old(reports) + [E_ERROR]
      ensures reliable ==> failed == old(failed)
    {
      hide Partition, Covers, Tiles, HoldsRanges;
      usbPool := usbPool + 1;
      if status == Completed {
        var watermark := poolSize / 2;
        if watermark <= usbPool {
          ContinueOutgoing();
        }
      } else if status != Cancelled {
        Report(E_ERROR);
      }
    }

    /** The host has taken the last packet of the front USB query. */
    ghost predicate HalfSent()
      reads this, memory
    {
      && Shape() && StorageStage() && OutgoingData() && usbQueries != [] && endpoint == []
      && Tiles(usbQueries + storageQueries, drained, currentQueryPosition)
      && currentQueryPosition + currentQueryLength == goal
      && progress == usbQueries[0].length
      && (|usbQueries| == 2 ==> usbQueries[1].offset == 0)
    }

    method ReturnFromUsb()
      requires HalfSent()
      modifies this`queryPool, this`usbQueries, this`drained, this`progress
      ensures Ranges(usbQueries + storageQueries) && OutgoingData()
      ensures progress == 0 && drained == old(drained + progress)
    {
      hide Partition, Tiles, HoldsRanges;
      TilesFinish(usbQueries, storageQueries, drained, currentQueryPosition);
      PartitionReturns(queryPool, usbQueries, storageQueries, half);
      HoldsRangesRest(memory[..], storage, usbQueries);
      var query := usbQueries[0];
      usbQueries := usbQueries[1..];
      queryPool := queryPool + [query];
      drained, progress := drained + query.length, 0;
    }

    /** The last packet of a half: the half returns to the pool. */
    method UsbTxLastCallback(status: UsbStatus)
      requires usbPool + |endpoint| + 1 == poolSize
      requires status == Completed ==> Unreported() && HalfSent()
      modifies this
      ensures Conserved() && SameTransfer() && SameContent() && fetched == old(fetched)
      ensures status == Completed ==> drained + progress == old(drained + progress)
      ensures status == Completed && !failed ==> Outgoing()
      ensures status != Completed ==> failed == old(failed)
      ensures status == Broken ==> reports == old(reports) + [E_ERROR]
      ensures reliable ==> failed == old(failed)
    {
      hide Partition, Tiles, Covers, HoldsRanges;
      usbPool := usbPool + 1;
      if status == Completed {
        ReturnFromUsb();
        ContinueOutgoing();
      } else if status != Cancelled {
        Report(E_ERROR);
      }
    }

    /** The bytes of a packet leave the front half. */
    method PacketSent(request: Request)
      requires Ranges(usbQueries + storageQueries) && OutgoingData() && usbQueries != []
      requires request.buffer == usbQueries[0].data + progress
      requires progress + request.capacity <= usbQueries[0].offset
      modifies this`sent
      ensures drained + progress + request.capacity <= goal
      ensures request.buffer + request.capacity <= memory.Length
      ensures sent == old(sent) + memory[request.buffer..request.buffer + request.capacity]
      ensures sent == storage[start..drained + progress + request.capacity]
    {
      hide Partition, Tiles, Covers, Holds;
      var query := usbQueries[0];
      TilesFinish(usbQueries, storageQueries, drained, currentQueryPosition);
      HoldsFits(memory[..], query.data, query.length, storage, query.position);
      PacketCarries(memory[..], query.data, query.length, storage, query.position, start, progress, request.capacity);
      sent := sent + memory[request.buffer..request.buffer + request.capacity];
    }

    /** The oldest packet leaves the endpoint. */
    method TakePacket(status: UsbStatus) returns (request: Request)
      requires Outgoing() && endpoint != []
      modifies this`endpoint, this`progress, this`failed, this`sent
      ensures usbPool + |endpoint| + 1 == poolSize && SameTransfer()
      ensures status == Completed ==> Unreported() && progress > old(progress)
      ensures status == Completed && request.last ==> HalfSent()
      ensures status == Completed && !request.last ==>
                Resting() && usbQueries != [] && OutgoingData() && Ranges(usbQueries + storageQueries)
      ensures failed == (status != Completed) && request == old(endpoint)[0]
      ensures status != Completed ==> sent == old(sent)
      ensures status == Completed ==>
                && request.buffer + request.capacity <= memory.Length
                && sent == old(sent) + memory[request.buffer..request.buffer + request.capacity]
    {
      hide Partition, Tiles, HoldsRanges, Covers;
      CoversFirst(endpoint, usbQueries[0].data, progress, usbQueries[0].offset, usbQueries[0].length, packetSize);
      request := endpoint[0];
      if status == Completed {
        PacketSent(request);
        endpoint, progress := endpoint[1..], progress + request.capacity;
      } else {
        endpoint, failed := endpoint[1..], true;
      }
    }

    /** Environment: the host has taken the oldest packet, or could not. */
    method CompleteTx(status: UsbStatus)
      requires Outgoing() && endpoint != []
      modifies this
      ensures Conserved() && SameTransfer()
      ensures status != Completed ==> failed && sent == old(sent)
      ensures status == Completed ==>
                var packet := old(endpoint)[0];
                && packet.buffer + packet.capacity <= memory.Length
                && sent == old(sent) + memory[packet.buffer..packet.buffer + packet.capacity]
      ensures !failed ==> Outgoing() && drained + progress > old(drained + progress) && fetched == old(fetched)
      ensures reliable && status == Completed ==> !failed
    {
      hide Outgoing, HalfSent, Ranges, OutgoingData, Resting, Unreported;
      var request := TakePacket(status);
      if request.last {
        UsbTxLastCallback(status);
      } else {
        UsbTxSilentCallback(status);
      }
    }

    /** The front storage query has been read into its half. */
    ghost predicate HalfRead()
      reads this, memory
    {
      && Shape() && UsbStage() && storageQueries != [] && operation == None
      && (|storageQueries| == 2 ==> storageQueries[1].offset == 0)
      && Tiles(usbQueries + storageQueries, drained, currentQueryPosition)
      && currentQueryPosition + currentQueryLength == goal
      && OutgoingData()
      && HoldsRanges(memory[..], storage, usbQueries + [storageQueries[0].(offset := 0)])
    }

    method PassToUsb()
      requires HalfRead()
      modifies this`usbQueries, this`storageQueries, this`fetched
      ensures Ranges(usbQueries + storageQueries) && OutgoingData() && fetched > old(fetched)
    {
      hide Partition, Tiles, HoldsRanges;
      PartitionPasses(queryPool, storageQueries, usbQueries, half);
      TilesPass(storageQueries, usbQueries, drained, currentQueryPosition);
      CoversNothing(storageQueries[0].data, storageQueries[0].length, packetSize);
      var query := storageQueries[0];
      storageQueries := storageQueries[1..];
      query := query.(offset := 0);
      usbQueries := usbQueries + [query];
      fetched := fetched + query.length;
      TilesSplit(usbQueries, storageQueries, drained, currentQueryPosition);
    }

    /** A completed storage read: its half moves on to the host. */
    method StorageReadCallback(ok: bool)
      requires Conserved() && (ok ==> Unreported() && HalfRead())
      modifies this
      ensures Conserved() && SameTransfer() && SameContent() && drained == old(drained) && progress == old(progress)
      ensures ok && !failed ==> Outgoing() && fetched > old(fetched)
      ensures !ok ==> failed == old(failed) && reports == old(reports) + [E_INTERFACE]
      ensures reliable ==> failed == old(failed)
    {
      hide Partition, Tiles, HoldsRanges, Covers, HalfRead;
      if !ok {
        Report(E_INTERFACE);
      } else {
        PassToUsb();
        ContinueOutgoing();
      }
    }

    /** The storage fills the half of its operation. */
    method Fetch(query: Query)
      requires Ranges(usbQueries + storageQueries) && OutgoingData()
      requires storageQueries != [] && query == storageQueries[0]
      modifies memory
      ensures Copied(old(memory[..]), memory[..], query.data, storage, query.position, query.length)
      ensures HoldsRanges(memory[..], storage, usbQueries + [query.(offset := 0)])
      ensures HoldsRanges(memory[..], storage, usbQueries)
    {
      hide Partition, Tiles, Overwrite, Holds;
      ReadArrives(memory[..], storage, queryPool, usbQueries, storageQueries, half, drained, currentQueryPosition);
      Receive(query.data, storage[query.position..query.position + query.length]);
      HoldsRangesPrefix(memory[..], storage, usbQueries, query.(offset := 0));
    }

    /** Environment: the storage operation in progress ends. */
    method CompleteRead(ok: bool)
      requires Outgoing() && operation.Some?
      modifies this, memory
      ensures Conserved() && SameTransfer()
      ensures !ok ==> failed && memory[..] == old(memory[..])
      ensures ok ==>
                var task := old(operation).value;
                Copied(old(memory[..]), memory[..], task.data, storage, task.position, task.length)
      ensures SameContent()
      ensures !failed ==> Outgoing() && fetched > old(fetched)
      ensures drained == old(drained) && progress == old(progress)
      ensures reliable && ok ==> !failed
    {
      hide Partition, Tiles, HoldsRanges, Covers;
      if ok {
        Fetch(storageQueries[0]);
      } else {
        failed := true;
      }
      operation := None;
      StorageReadCallback(ok);
    }

    method PrepareOutgoing(storagePosition: nat, transferLength: nat)
      requires Idle() && 0 < transferLength
      modifies this`queryPool, this`usbQueries, this`storageQueries, this`currentQueryLength, this`currentQueryPosition
      modifies this`currentStatus, this`reports, this`failed, this`progress, this`start, this`goal, this`drained
      ensures Flowing(usbQueries + storageQueries) && Unreported() && (queryPool == [] || currentQueryLength == 0)
      ensures usbQueries == [] && operation == None
      ensures storageQueries != [] && storageQueries[0].position == storagePosition
      ensures start == drained == storagePosition && progress == 0
      ensures goal == storagePosition + transferLength
    {
      hide Partition, Covers, Tiles;
      MakePingPongTransfer(storagePosition, transferLength);
      FreshTransfer();
      FillStorageReadQueue();
      assert usbQueries + storageQueries == storageQueries;
      TilesFront(storageQueries, drained, currentQueryPosition);
    }

    /** The first storage operation of a transfer to the host. */
    method StartStorage() returns (ok: bool)
      requires Flowing(usbQueries + storageQueries) && storageQueries != [] && operation == None
      modifies this`storageQueries, this`operation, this`failed
      ensures ok ==> failed == old(failed) && Flowing(usbQueries + storageQueries) && operation.Some?
      ensures storageQueries != [] && storageQueries[0].position == old(storageQueries[0].position)
      ensures !ok ==> failed
      ensures reliable ==> failed == old(failed)
    {
      hide Partition, Covers, Tiles;
      ghost var waiting := storageQueries;
      var query := storageQueries[0];
      query := query.(offset := query.length);
      storageQueries := storageQueries[0 := query];
      FlowIgnoresOffsets(usbQueries, waiting, usbQueries, storageQueries, drained, currentQueryPosition);
      OffsetsAreIrrelevant(queryPool, usbQueries, waiting, usbQueries, storageQueries, half);
      ok := StartOperation(query);
    }

    /** `datapathReadAndSendData`. */
    method ReadAndSendData(storagePosition: nat, transferLength: nat) returns (ok: bool)
      requires Idle() && 0 < transferLength && storagePosition + transferLength <= |storage|
      modifies this
      ensures storage == old(storage) && initial == old(storage)
      ensures start == storagePosition && goal == storagePosition + transferLength
      ensures ok ==> !failed && Outgoing() && drained == start && progress == 0
      ensures !ok ==> failed
      ensures reliable ==> ok
    {
      hide Partition, Covers, Holds, Tiles;
      PrepareOutgoing(storagePosition, transferLength);
      sent, initial, fetched := [], storage, storagePosition;
      ok := StartStorage();
    }

    /** A finished transfer has sent every byte. */
    lemma Sent()
      requires Outgoing() && Finished()
      ensures reports == [E_OK] && currentStatus == E_OK && Idle()
      ensures sent == initial[start..goal] && storage == initial
    {
    }

    /** Bytes still to read from the storage and bytes still to send. */
    ghost function Unsent(): nat
      reads this
    {
      if fetched <= goal && drained + progress <= goal then goal - fetched + goal - drained - progress else 0
    }

    /** Runs a transfer to the host against every order of completions. */
    method ReadTransfer(storagePosition: nat, length: nat) returns (ok: bool)
      requires Idle() && 0 < length && storagePosition + length <= |storage|
      modifies this, memory
      ensures ok ==> reports == [E_OK] && currentStatus == E_OK && Idle()
      ensures ok ==> storage == old(storage) && sent == storage[storagePosition..storagePosition + length]
      ensures !ok ==> failed
      ensures reliable ==> ok
    {
      hide Flowing, Settled, HoldsRanges;
      ok := ReadAndSendData(storagePosition, length);
      while ok && (endpoint != [] || operation.Some?)
        invariant ok ==> !failed && Outgoing()
        invariant (!ok ==> failed) && (reliable ==> ok)
        invariant initial == old(storage) && start == storagePosition && goal == storagePosition + length
        decreases if ok then 1 + Unsent() else 0
      {
        var usbFirst: bool := *;
        if endpoint != [] && (usbFirst || operation.None?) {
          var status: UsbStatus := *;
          CompleteTx(if reliable then Completed else status);
        } else {
          var read: bool := *;
          CompleteRead(read || reliable);
        }
        ok := !failed;
      }
      if ok {
        Waiting(usbQueries + storageQueries);
        Sent();
      }
    }
  }
}
