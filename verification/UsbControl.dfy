/**
 * Control endpoint of usb/usb_control.c: responses are cut into packets, data sent by the
 * host is put together from packets before the driver sees it.
 */
module UsbControl {
  import opened Common

  type byte = x: int | 0 <= x < 256
  type u16 = x: int | 0 <= x < 0x10000

  const EP0_PACKET_SIZE: nat := 64

  /** Direction, wLength, and everything else that a driver looks at. */
  datatype SetupPacket = SetupPacket(toHost: bool, length: u16, request: nat)

  datatype Event = Setup(packet: SetupPacket) | Chunk(bytes: seq<byte>) | Cancelled

  /** What the driver is called with, and what it answers. */
  datatype Call = Call(packet: SetupPacket, data: seq<byte>)
  datatype Answer = Answer(res: Result, response: seq<byte>)

  // Packets to the host

  function Flatten(packets: seq<seq<byte>>): seq<byte> {
    if packets == [] then [] else packets[0] + Flatten(packets[1..])
  }

  /** Full packets and a short one at the end, section 5.5.3 of USB 2.0. */
  function Packets(data: seq<byte>): (packets: seq<seq<byte>>)
    ensures packets != []
  {
    if |data| < EP0_PACKET_SIZE then [data] else [data[..EP0_PACKET_SIZE]] + Packets(data[EP0_PACKET_SIZE..])
  }

  lemma {:induction false} PacketsShape(data: seq<byte>)
    ensures |Packets(data)| == |data| / EP0_PACKET_SIZE + 1 && Flatten(Packets(data)) == data
    ensures forall i | 0 <= i < |Packets(data)| - 1 :: |Packets(data)[i]| == EP0_PACKET_SIZE
    ensures |Packets(data)[|Packets(data)| - 1]| < EP0_PACKET_SIZE
  {
    if |data| < EP0_PACKET_SIZE {
      assert Packets(data)[1..] == [];
    } else {
      var rest := data[EP0_PACKET_SIZE..];
      PacketsShape(rest);
      assert Packets(data)[1..] == Packets(rest);
    }
  }

  /**
   * The host reads until a short packet or until it has the bytes that its request has
   * announced, section 5.5.3 of USB 2.0: the bytes and the number of packets it has taken.
   */
  function HostRead(queue: seq<seq<byte>>, length: nat): (seq<byte>, nat) {
    if queue == [] then ([], 0)
    else if |queue[0]| < EP0_PACKET_SIZE || length <= |queue[0]| then (queue[0], 1)
    else
      var (bytes, count) := HostRead(queue[1..], length - |queue[0]|);
      (queue[0] + bytes, count + 1)
  }

  /** The response is all that was asked for and consists of full packets. */
  predicate LeavesEmptyPacket(data: seq<byte>, length: nat) {
    |data| == length && |data| % EP0_PACKET_SIZE == 0
  }

  /**
   * The host recovers the response. It stops in front of the next one unless an empty
   * packet that it does not ask for is left in between.
   */
  lemma {:induction false} HostRecovers(data: seq<byte>, length: nat, later: seq<seq<byte>>)
    requires 0 < length && |data| <= length
    ensures var (bytes, count) := HostRead(Packets(data) + later, length);
            && bytes == data && count <= |Packets(data)|
            && (Packets(data) + later)[count..] == (if LeavesEmptyPacket(data, length) then [[]] else []) + later
            && (count == |Packets(data)| <==> !LeavesEmptyPacket(data, length))
    decreases length
  {
    hide Packets, HostRead;
    if |data| < EP0_PACKET_SIZE || length == EP0_PACKET_SIZE {
      LastPacket(data, length, later);
    } else {
      var rest := data[EP0_PACKET_SIZE..];
      HostRecovers(rest, length - EP0_PACKET_SIZE, later);
      FirstPacket(data, length, later);
      assert data == data[..EP0_PACKET_SIZE] + rest;
    }
  }

  /** The host is done with the first packet. */
  lemma LastPacket(data: seq<byte>, length: nat, later: seq<seq<byte>>)
    requires |data| <= length && 0 < length && (|data| < EP0_PACKET_SIZE || length == EP0_PACKET_SIZE)
    ensures HostRead(Packets(data) + later, length) == (data, 1)
    ensures Packets(data) + later == [data] + (if |data| == EP0_PACKET_SIZE then [[]] else []) + later
    ensures (Packets(data) + later)[1..] == (if |data| == EP0_PACKET_SIZE then [[]] else []) + later
    ensures |Packets(data)| == if |data| == EP0_PACKET_SIZE then 2 else 1
  {
    if |data| == EP0_PACKET_SIZE {
      assert data[..EP0_PACKET_SIZE] == data && data[EP0_PACKET_SIZE..] == [];
      assert Packets([]) == [[]];
      assert Packets(data) == [data] + [[]];
    } else {
      assert Packets(data) == [data];
    }
    assert (Packets(data) + later)[0] == data;
  }

  /** The host goes on with the rest of the response. */
  lemma FirstPacket(data: seq<byte>, length: nat, later: seq<seq<byte>>)
    requires EP0_PACKET_SIZE <= |data| <= length && EP0_PACKET_SIZE < length
    ensures var rest := data[EP0_PACKET_SIZE..];
            var (bytes, count) := HostRead(Packets(rest) + later, length - EP0_PACKET_SIZE);
            && HostRead(Packets(data) + later, length) == (data[..EP0_PACKET_SIZE] + bytes, count + 1)
            && |Packets(data)| == |Packets(rest)| + 1
            && (count <= |Packets(rest)| ==>
                  (Packets(data) + later)[count + 1..] == (Packets(rest) + later)[count..])
  {
    var rest := data[EP0_PACKET_SIZE..];
    var queue := Packets(data) + later;
    assert Packets(data) == [data[..EP0_PACKET_SIZE]] + Packets(rest);
    assert queue[0] == data[..EP0_PACKET_SIZE] && queue[1..] == Packets(rest) + later;
  }

  /**
   * What a SETUP packet leaves in the queue of the endpoint: some platforms terminate the
   * pending requests, others retain them.
   */
  function Kept(queue: seq<seq<byte>>, retains: bool): seq<seq<byte>> {
    if retains then queue else []
  }

  /**
   * The next request begins with a SETUP packet and gets its response unless an empty
   * packet was left and the endpoint retains it: then that is taken for the response.
   */
  lemma NextResponse(data: seq<byte>, length: nat, next: seq<byte>, nextLength: nat, retains: bool)
    requires 0 < length && |data| <= length && 0 < |next| <= nextLength
    ensures HostRead(Packets(data), length).1 <= |Packets(data)|
    ensures var left := Packets(data)[HostRead(Packets(data), length).1..];
            HostRead(Kept(left, retains) + Packets(next), nextLength).0
            == if LeavesEmptyPacket(data, length) && retains then [] else next
  {
    hide Packets, LeavesEmptyPacket;
    HostRecovers(data, length, []);
    assert Packets(data) + [] == Packets(data);
    var left := Packets(data)[HostRead(Packets(data), length).1..];
    if left == [[]] && retains {
      assert Kept(left, retains) + Packets(next) == [[]] + Packets(next);
    } else {
      assert left == [[]] || left == [];
      HostRecovers(next, nextLength, []);
      assert Kept(left, retains) + Packets(next) == Packets(next) + [];
    }
  }

  /** A request for 64 bytes that is answered by 64 bytes is such a response. */
  lemma FullPacketIsNotFinal(data: seq<byte>)
    requires |data| == 64
    ensures Packets(data) == [data, []] && HostRead(Packets(data), 64) == (data, 1)
  {
    LastPacket(data, 64, []);
    assert Packets(data) + [] == Packets(data);
  }

  /** Packet `index` carries the bytes from `index * EP0_PACKET_SIZE` on. */
  lemma {:induction false} PacketAt(data: seq<byte>, index: nat)
    requires index <= |data| / EP0_PACKET_SIZE
    ensures index < |Packets(data)|
    ensures Packets(data)[index]
         == data[index * EP0_PACKET_SIZE..Min(|data|, index * EP0_PACKET_SIZE + EP0_PACKET_SIZE)]
  {
    PacketsStep(data);
    if 0 < index {
      var rest, at := data[EP0_PACKET_SIZE..], (index - 1) * EP0_PACKET_SIZE;
      PacketAt(rest, index - 1);
      assert index * EP0_PACKET_SIZE == EP0_PACKET_SIZE + at;
      var end := Min(|rest|, at + EP0_PACKET_SIZE);
      assert rest[at..end] == data[EP0_PACKET_SIZE + at..EP0_PACKET_SIZE + end];
    }
  }

  lemma PacketsStep(data: seq<byte>)
    ensures Packets(data)[0] == data[..Min(|data|, EP0_PACKET_SIZE)]
    ensures EP0_PACKET_SIZE <= |data| ==> Packets(data)[1..] == Packets(data[EP0_PACKET_SIZE..])
  {
  }

  // Data from the host

  /** Data stage in progress. */
  datatype Stage = Quiet | Partial(packet: SetupPacket, data: seq<byte>)

  ghost predicate Proper(stage: Stage, capacity: nat) {
    stage.Partial? ==>
      !stage.packet.toHost && |stage.data| < stage.packet.length <= capacity
  }

  /** One packet of the host: the stage that follows and the call of the driver, if there is one. */
  function Next(stage: Stage, event: Event, capacity: nat): (Stage, Option<Call>) {
    match event
    case Setup(packet) =>
      if packet.length == 0 || packet.toHost then (Quiet, Some(Call(packet, [])))
      else if packet.length <= capacity then (Partial(packet, []), None)
      else (Quiet, None)
    case Chunk(bytes) =>
      if stage.Partial? && |stage.data| + |bytes| <= stage.packet.length then
        var data := stage.data + bytes;
        if |data| == stage.packet.length then (Quiet, Some(Call(stage.packet, data)))
        else (Partial(stage.packet, data), None)
      else
        (stage, None)
    case Cancelled => (stage, None)
  }

  function Feed(stage: Stage, events: seq<Event>, capacity: nat): (Stage, seq<Call>)
    decreases events
  {
    if events == [] then (stage, []) else
      var next := Next(stage, events[0], capacity);
      var later := Feed(next.0, events[1..], capacity);
      (later.0, Listed(next.1) + later.1)
  }

  function Listed(call: Option<Call>): seq<Call> {
    if call.Some? then [call.value] else []
  }

  lemma FeedStep(stage: Stage, event: Event, events: seq<Event>, capacity: nat)
    ensures var next := Next(stage, event, capacity);
            var later := Feed(next.0, events, capacity);
            Feed(stage, [event] + events, capacity)
            == (later.0, if next.1 == None then later.1 else [next.1.value] + later.1)
  {
    assert ([event] + events)[1..] == events;
    var next := Next(stage, event, capacity);
    assert next.1 == None ==> Listed(next.1) + Feed(next.0, events, capacity).1 == Feed(next.0, events, capacity).1;
  }

  function Chunks(data: seq<seq<byte>>): seq<Event> {
    if data == [] then [] else [Chunk(data[0])] + Chunks(data[1..])
  }

  lemma {:induction false} FeedQuiet(data: seq<seq<byte>>, capacity: nat)
    ensures Feed(Quiet, Chunks(data), capacity) == (Quiet, [])
  {
    if data == [] {
    } else {
      FeedQuiet(data[1..], capacity);
      FeedStep(Quiet, Chunk(data[0]), Chunks(data[1..]), capacity);
    }
  }

  lemma {:induction false} FeedPartial(packet: SetupPacket, known: seq<byte>, data: seq<seq<byte>>, capacity: nat)
    requires |known| < packet.length && |known| + |Flatten(data)| == packet.length
    ensures Feed(Partial(packet, known), Chunks(data), capacity) == (Quiet, [Call(packet, known + Flatten(data))])
    decreases data
  {
    assert data != [];
    FeedStep(Partial(packet, known), Chunk(data[0]), Chunks(data[1..]), capacity);
    assert known + Flatten(data) == known + data[0] + Flatten(data[1..]);
    if |known| + |data[0]| == packet.length {
      assert Flatten(data[1..]) == [];
      assert known + Flatten(data) == known + data[0];
      assert [Call(packet, known + data[0])] + [] == [Call(packet, known + data[0])];
      FeedQuiet(data[1..], capacity);
    } else {
      FeedPartial(packet, known + data[0], data[1..], capacity);
    }
  }

  /**
   * Whatever came before, a setup packet and chunks of wLength bytes in total call the
   * driver once, with the bytes in order.
   */
  lemma DataReachesDriver(stage: Stage, packet: SetupPacket, data: seq<seq<byte>>, capacity: nat)
    requires !packet.toHost && 0 < packet.length <= capacity && |Flatten(data)| == packet.length
    ensures Feed(stage, [Setup(packet)] + Chunks(data), capacity) == (Quiet, [Call(packet, Flatten(data))])
  {
    FeedPartial(packet, [], data, capacity);
    FeedStep(stage, Setup(packet), Chunks(data), capacity);
    assert [] + Flatten(data) == Flatten(data);
  }

  /** Data for which there is no room never reaches the driver. */
  lemma OversizeIsDropped(stage: Stage, packet: SetupPacket, data: seq<seq<byte>>, capacity: nat)
    requires !packet.toHost && capacity < packet.length
    ensures Feed(stage, [Setup(packet)] + Chunks(data), capacity) == (Quiet, [])
  {
    FeedQuiet(data, capacity);
    FeedStep(stage, Setup(packet), Chunks(data), capacity);
  }

  class Control {
    // Number of the requests for responses
    const requests: nat
    const payload: array<byte>
    // The endpoint for responses retains its packets when a SETUP packet arrives
    const retains: bool

    var inRequestPool: nat
    var inQueue: seq<seq<byte>>
    var outQueued: bool
    var stalled: bool
    var packet: SetupPacket
    var left: nat
    // Calls of the driver
    var calls: seq<Call>

    ghost predicate Valid()
      reads this, payload
    {
      && payload.Length == requests * EP0_PACKET_SIZE && inRequestPool + |inQueue| == requests
      && left <= packet.length
      && (0 < left ==> !packet.toHost && packet.length <= payload.Length)
    }

    ghost function Abstract(): Stage
      reads this, payload
      requires Valid()
    {
      if left == 0 then Quiet else Partial(packet, payload[..packet.length - left])
    }

    /** `controlInit`. */
    constructor (requests: nat, retains: bool)
      ensures Valid() && this.requests == requests && this.retains == retains
      ensures Abstract() == Quiet && inQueue == [] && calls == []
    {
      this.requests, this.retains := requests, retains;
      payload := new byte[requests * EP0_PACKET_SIZE](_ => 0);
      inRequestPool, inQueue, outQueued, stalled := requests, [], true, false;
      packet, left, calls := SetupPacket(false, 0, 0), 0, [];
    }

    /** `controlInHandler`: the host has taken a packet. */
    method ControlInHandler()
      requires Valid() && inQueue != []
      modifies this`inRequestPool, this`inQueue
      ensures Valid() && inQueue == old(inQueue)[1..] && Abstract() == old(Abstract())
    {
      inQueue := inQueue[1..];
      inRequestPool := inRequestPool + 1;
    }

    /** `sendResponse`: either the whole response is queued or nothing. */
    method SendResponse(length: nat)
      requires Valid() && length <= payload.Length
      modifies this`inRequestPool, this`inQueue
      ensures Valid()
      ensures inQueue == if old(inRequestPool) < length / EP0_PACKET_SIZE + 1 then old(inQueue)
                         else old(inQueue) + Packets(payload[..length])
    {
      var chunkCount := (length + (EP0_PACKET_SIZE - 1)) / EP0_PACKET_SIZE;
      if length % EP0_PACKET_SIZE == 0 {
        chunkCount := chunkCount + 1;
      }
      if chunkCount <= inRequestPool {
        QueuePackets(length, chunkCount);
      }
    }

    /** The loop of `sendResponse`. */
    method QueuePackets(length: nat, chunkCount: nat)
      requires Valid() && length <= payload.Length && chunkCount == length / EP0_PACKET_SIZE + 1 <= inRequestPool
      modifies this`inRequestPool, this`inQueue
      ensures Valid() && inQueue == old(inQueue) + Packets(payload[..length])
    {
      hide Packets, Flatten;
      ghost var packets := Packets(payload[..length]);
      PacketsShape(payload[..length]);
      var data, left := 0, length;
      var index := 0;
      while index < chunkCount
        invariant index <= chunkCount && data + left == length && 0 <= left && data == Min(length, index * EP0_PACKET_SIZE)
        invariant inRequestPool + |inQueue| == requests && chunkCount - index <= inRequestPool
        invariant inQueue == old(inQueue) + packets[..index]
      {
        inRequestPool := inRequestPool - 1;
        var chunk := Min(left, EP0_PACKET_SIZE);
        NextPacket(payload[..], length, index);
        assert payload[..][..length] == payload[..length];
        inQueue := inQueue + [payload[data..data + chunk]];
        data := data + chunk;
        left := left - chunk;
        index := index + 1;
      }
    }

    static lemma NextPacket(payload: seq<byte>, length: nat, index: nat)
      requires length <= |payload| && index <= length / EP0_PACKET_SIZE
      ensures index * EP0_PACKET_SIZE <= length && index < |Packets(payload[..length])|
      ensures var data := index * EP0_PACKET_SIZE;
              Packets(payload[..length])[index] == payload[data..data + Min(length - data, EP0_PACKET_SIZE)]
    {
      PacketAt(payload[..length], index);
    }

    /** `epClear`: every pending request returns through `controlInHandler`. */
    method ClearResponses()
      requires Valid()
      modifies this`inRequestPool, this`inQueue
      ensures Valid() && inQueue == [] && inRequestPool == requests && Abstract() == old(Abstract())
    {
      while inQueue != []
        invariant Valid() && Abstract() == old(Abstract())
        decreases |inQueue|
      {
        ControlInHandler();
      }
    }

    /** A packet of the host arrives at the endpoint of the platform and then at the control layer. */
    method PacketArrives(event: Event, answer: Answer)
      requires Valid() && |answer.response| <= payload.Length
      modifies this, payload
      ensures Valid()
      ensures var (stage, call) := Next(old(Abstract()), event, payload.Length);
              && Abstract() == stage && calls == old(calls) + Listed(call)
              && var queue := Kept(old(inQueue), retains || !event.Setup?);
                 && |queue| <= requests
                 && inQueue == queue + (if call.Some? then Reply(call.value.packet, answer, requests - |queue|) else [])
    {
      if event.Setup? && !retains {
        ClearResponses();
      }
      ControlOutHandler(event, answer);
    }

    /** The host takes packets until it has its response. */
    method HostTakes(length: nat) returns (bytes: seq<byte>)
      requires Valid() && 0 < length
      modifies this`inRequestPool, this`inQueue
      ensures Valid() && Abstract() == old(Abstract())
      ensures var (read, count) := HostRead(old(inQueue), length);
              bytes == read && count <= |old(inQueue)| && inQueue == old(inQueue)[count..]
    {
      bytes := [];
      ghost var taken: nat := 0;
      var left: nat := length;
      assert bytes + HostRead(inQueue, left).0 == HostRead(inQueue, left).0;
      while inQueue != [] && 0 < left
        invariant Valid() && Abstract() == old(Abstract())
        invariant taken <= |old(inQueue)| && inQueue == old(inQueue)[taken..]
        invariant 0 < left ==>
                    HostRead(old(inQueue), length)
                    == (bytes + HostRead(inQueue, left).0, taken + HostRead(inQueue, left).1)
        invariant left == 0 ==> HostRead(old(inQueue), length) == (bytes, taken)
        decreases |inQueue|
      {
        var packet := inQueue[0];
        var last := |packet| < EP0_PACKET_SIZE || left <= |packet|;
        if !last {
          ghost var rest := HostRead(inQueue[1..], left - |packet|).0;
          assert bytes + (packet + rest) == bytes + packet + rest;
        }
        ControlInHandler();
        bytes := bytes + packet;
        taken := taken + 1;
        left := if last then 0 else left - |packet|;
      }
    }

    /** The response to a request after it has been cut to the length that was asked for. */
    static function Cut(packet: SetupPacket, answer: Answer): seq<byte> {
      answer.response[..Min(packet.length, |answer.response|)]
    }

    /**
     * Two requests of the host in a row, each with its response. The first response always
     * arrives; the second one does exactly if the first has left no empty packet behind or
     * the endpoint does not retain it.
     */
    method TwoRequests(first: SetupPacket, answer: Answer, second: SetupPacket, next: Answer)
      returns (bytes: seq<byte>, later: seq<byte>)
      requires Valid() && inQueue == []
      requires first.toHost && 0 < first.length && answer.res == E_OK && |answer.response| < payload.Length
      requires second.toHost && 0 < second.length && next.res == E_OK
      requires next.response != [] && |next.response| + EP0_PACKET_SIZE < payload.Length
      modifies this, payload
      ensures Valid()
      ensures bytes == Cut(first, answer)
      ensures later == Cut(second, next) <==> !(retains && LeavesEmptyPacket(Cut(first, answer), first.length))
    {
      hide Packets, HostRead, LeavesEmptyPacket, Next;
      var data, response := Cut(first, answer), Cut(second, next);
      NextResponse(data, first.length, response, second.length, retains);
      HostRecovers(data, first.length, []);
      assert Packets(data) + [] == Packets(data);
      RequestIsAnswered(Abstract(), first);
      PacketArrives(Setup(first), answer);
      assert inQueue == Packets(data);
      bytes := HostTakes(first.length);
      RequestIsAnswered(Abstract(), second);
      PacketArrives(Setup(second), next);
      later := HostTakes(second.length);
    }

    lemma RequestIsAnswered(stage: Stage, packet: SetupPacket)
      requires packet.toHost
      ensures Next(stage, Setup(packet), payload.Length) == (Quiet, Some(Call(packet, [])))
    {
    }

    /** `controlOutHandler`: the packets of the host, and the answer of the driver if it is called. */
    method ControlOutHandler(event: Event, answer: Answer)
      requires Valid() && |answer.response| <= payload.Length
      modifies this, payload
      ensures Valid()
      ensures var (stage, call) := Next(old(Abstract()), event, payload.Length);
              && Abstract() == stage && calls == old(calls) + Listed(call)
      ensures var call := Next(old(Abstract()), event, payload.Length).1;
              inQueue == old(inQueue) + (if call.Some? then Reply(call.value.packet, answer, old(inRequestPool)) else [])
      ensures event != Cancelled ==> outQueued
    {
      var ready := false;
      if event.Cancelled? {
        return;
      }
      if event.Setup? {
        packet := event.packet;
        left := 0;
        if packet.length == 0 || packet.toHost {
          ready := true;
        } else if packet.length <= payload.Length {
          left := packet.length;
        }
      } else if left != 0 && |event.bytes| <= left {
        var offset := packet.length - left;
        ghost var known := payload[..offset];
        forall i | 0 <= i < |event.bytes| {
          payload[offset + i] := event.bytes[i];
        }
        assert payload[..offset + |event.bytes|] == known + event.bytes;
        left := left - |event.bytes|;
        if left == 0 {
          ready := true;
        }
      }
      if ready {
        CallDriver(answer);
      }
      outQueued := true;
    }

    /** The packets that answer a call: nothing if the driver refuses or the pool is too small. */
    static function Reply(packet: SetupPacket, answer: Answer, pool: nat): seq<seq<byte>> {
      var length := if packet.toHost then Min(packet.length, |answer.response|) else 0;
      if answer.res != E_OK || pool < length / EP0_PACKET_SIZE + 1 then []
      else Packets(if packet.toHost then answer.response[..length] else [])
    }

    /** The end of `controlOutHandler` when all data is there. */
    method CallDriver(answer: Answer)
      requires Valid() && left == 0 && |answer.response| <= payload.Length
      requires packet.toHost || packet.length <= payload.Length
      modifies this`calls, this`stalled, this`inRequestPool, this`inQueue, payload
      ensures Valid()
      ensures calls == old(calls) + [Call(packet, if packet.toHost then [] else old(payload[..packet.length]))]
      ensures inQueue == old(inQueue) + Reply(packet, answer, old(inRequestPool))
      ensures answer.res != E_OK ==> stalled
    {
      var out := !packet.toHost;
      var length := 0;
      calls := calls + [Call(packet, if out then payload[..packet.length] else [])];
      if !out {
        // The driver writes its response
        forall i | 0 <= i < |answer.response| {
          payload[i] := answer.response[i];
        }
        length := |answer.response|;
      }
      if answer.res == E_OK {
        if packet.length < length {
          length := packet.length;
        }
        assert payload[..length] == if out then [] else answer.response[..length];
        SendResponse(length);
      } else {
        stalled := true;
      }
    }

    /** With all requests free a response is sent exactly when it is shorter than the payload. */
    lemma FullPayloadIsDropped(packet: SetupPacket, answer: Answer)
      requires Valid() && |answer.response| <= payload.Length && answer.res == E_OK
      requires packet.toHost && packet.length >= |answer.response|
      ensures Reply(packet, answer, requests) == [] <==> |answer.response| == payload.Length
    {
    }
  }
}
