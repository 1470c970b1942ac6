/**
 * Ranges, halves and bytes of the ping-pong buffer: what the queues of the data path
 * promise about storage positions, buffer halves and their contents.
 */
module PingPong {
  import opened Common

  type byte = x: int | 0 <= x < 256

  datatype Query = Query(position: nat, data: nat, capacity: nat, length: nat, offset: nat)

  /** Packet queued on the bulk endpoint; `last` selects the callback. */
  datatype Request = Request(buffer: nat, capacity: nat, last: bool)

  /** Storage operation in progress. */
  datatype Operation = Operation(position: nat, data: nat, length: nat)

  function Op(query: Query): Operation {
    Operation(query.position, query.data, query.length)
  }

  ghost predicate Tile(query: Query, start: nat, end: nat) {
    query.position == start && 0 < query.length <= query.capacity && start + query.length == end
  }

  /** The ranges of the queries follow each other without a gap. */
  ghost predicate Tiles(order: seq<Query>, start: nat, end: nat) {
    match |order| {
      case 0 => start == end
      case 1 => Tile(order[0], start, end)
      case 2 => Tile(order[0], start, order[1].position) && Tile(order[1], order[1].position, end)
      case _ => false
    }
  }

  /** The lower and the upper half of the buffer are in exactly one place each. */
  ghost predicate Partition(pool: seq<Query>, usb: seq<Query>, storage: seq<Query>, half: nat) {
    && |pool| + |usb| + |storage| == 2
    && (forall q | q in pool || q in usb || q in storage ::
          q.capacity == half && (q.data == 0 || q.data == half))
    && (forall q, r | q in pool && r in usb :: q.data != r.data)
    && (forall q, r | q in pool && r in storage :: q.data != r.data)
    && (forall q, r | q in usb && r in storage :: q.data != r.data)
    && (|pool| == 2 ==> pool[0].data != pool[1].data)
    && (|usb| == 2 ==> usb[0].data != usb[1].data)
    && (|storage| == 2 ==> storage[0].data != storage[1].data)
  }

  lemma CoversFirst(packets: seq<Request>, data: nat, start: nat, end: nat, length: nat, size: nat)
    requires Covers(packets, data, start, end, length, size) && packets != [] && start <= length && 0 < size
    ensures packets[0] == Packet(data, start, length, size)
    ensures 0 < packets[0].capacity && start + packets[0].capacity <= end <= length
    ensures Covers(packets[1..], data, start + packets[0].capacity, end, length, size)
    ensures packets[0].last ==> start + packets[0].capacity == length && packets[1..] == []
    ensures !packets[0].last ==> start + packets[0].capacity < length
  {
    CoversWithin(packets[1..], data, start + packets[0].capacity, end, length, size);
  }

  lemma TilesExtend(order: seq<Query>, start: nat, middle: nat, query: Query, end: nat)
    requires Tiles(order, start, middle) && |order| < 2 && Tile(query, middle, end)
    ensures Tiles(order + [query], start, end)
  {
  }

  lemma FreshHalves(half: nat)
    ensures Partition([Query(0, 0, half, 0, 0), Query(0, half, half, 0, 0)], [], [], half) <==> 0 < half
  {
  }

  /** A free query keeps its half when it moves to a queue. */
  lemma PartitionMoves(pool: seq<Query>, usb: seq<Query>, storage: seq<Query>, half: nat, query: Query)
    requires Partition(pool, usb, storage, half) && pool != []
    requires query.data == pool[|pool| - 1].data && query.capacity == half
    ensures Partition(pool[..|pool| - 1], usb + [query], storage, half)
    ensures Partition(pool[..|pool| - 1], usb, storage + [query], half)
  {
  }

  /** Queues that differ only in the progress of their queries. */
  ghost predicate SameRanges(a: seq<Query>, b: seq<Query>) {
    |a| == |b| && forall i | 0 <= i < |a| :: a[i].(offset := 0) == b[i].(offset := 0)
  }

  ghost predicate Extends(a: seq<Query>, b: seq<Query>) {
    |a| <= |b| && SameRanges(a, b[..|a|])
  }

  lemma OffsetsAreIrrelevant(pool: seq<Query>, usb: seq<Query>, storage: seq<Query>, usb': seq<Query>, storage': seq<Query>, half: nat)
    requires SameRanges(usb, usb') && SameRanges(storage, storage')
    requires Partition(pool, usb, storage, half)
    ensures Partition(pool, usb', storage', half)
  {
  }

  lemma TilesIgnoreOffsets(order: seq<Query>, order': seq<Query>, start: nat, end: nat)
    requires SameRanges(order, order') && Tiles(order, start, end)
    ensures Tiles(order', start, end)
  {
  }

  lemma FlowIgnoresOffsets(front: seq<Query>, back: seq<Query>, front': seq<Query>, back': seq<Query>, start: nat, end: nat)
    requires SameRanges(front, front') && SameRanges(back, back') && Tiles(front + back, start, end)
    ensures Tiles(front' + back', start, end)
  {
    TilesIgnoreOffsets(front + back, front' + back', start, end);
  }

  lemma ExtendsThrough(a: seq<Query>, b: seq<Query>, c: seq<Query>)
    requires a <= b && SameRanges(b, c)
    ensures Extends(a, c)
  {
  }

  /** The packets cover bytes [start, end) of a half with `length` bytes in use. */
  ghost predicate Covers(packets: seq<Request>, data: nat, start: nat, end: nat, length: nat, size: nat) {
    if packets == [] then start == end else
      && start < length
      && packets[0] == Packet(data, start, length, size)
      && Covers(packets[1..], data, start + packets[0].capacity, end, length, size)
  }

  function Packet(data: nat, offset: nat, length: nat, size: nat): Request
    requires offset <= length
  {
    var capacity := Min(length - offset, size);
    Request(data + offset, capacity, capacity == length - offset)
  }

  lemma {:induction false} CoversExtends(packets: seq<Request>, data: nat, start: nat, end: nat, length: nat, size: nat)
    requires Covers(packets, data, start, end, length, size) && end < length && 0 < size
    ensures Covers(packets + [Packet(data, end, length, size)], data, start,
                   end + Min(length - end, size), length, size)
  {
    if packets == [] {
    } else {
      CoversExtends(packets[1..], data, start + packets[0].capacity, end, length, size);
      assert (packets + [Packet(data, end, length, size)])[1..]
          == packets[1..] + [Packet(data, end, length, size)];
    }
  }

  lemma CoversNothing(data: nat, length: nat, size: nat)
    ensures Covers([], data, 0, 0, length, size)
  {
  }

  lemma {:induction false} CoversWithin(packets: seq<Request>, data: nat, start: nat, end: nat, length: nat, size: nat)
    requires Covers(packets, data, start, end, length, size) && start <= length && 0 < size
    ensures start <= end <= length
    ensures packets != [] <==> start < end
    ensures forall p | p in packets :: data <= p.buffer && p.buffer + p.capacity <= data + length
  {
    if packets == [] {
    } else {
      CoversWithin(packets[1..], data, start + packets[0].capacity, end, length, size);
    }
  }

  /** `length` bytes at address `data` equal those of `source` from index `from`. */
  ghost predicate Holds(memory: seq<byte>, data: nat, length: nat, source: seq<byte>, from: nat) {
    && data + length <= |memory| && from + length <= |source|
    && memory[data..data + length] == source[from..from + length]
  }

  function Overwrite(bytes: seq<byte>, at: nat, patch: seq<byte>): seq<byte>
    requires at + |patch| <= |bytes|
  {
    bytes[..at] + patch + bytes[at + |patch|..]
  }

  /** `count` bytes of the source from `from` on have been copied to `at`, and nothing else has changed. */
  predicate Copied(before: seq<byte>, after: seq<byte>, at: nat, source: seq<byte>, from: nat, count: nat) {
    at + count <= |before| && from + count <= |source| && after == Overwrite(before, at, source[from..from + count])
  }

  /** Storage position of the first byte that has not passed through a queue. */
  function Front(queue: seq<Query>, next: nat): nat {
    if queue == [] then next else queue[0].position
  }

  /** Complete halves and the completed part of the front half hold the bytes of the host. */
  ghost predicate HoldsHost(memory: seq<byte>, host: seq<byte>, start: nat, usb: seq<Query>, storage: seq<Query>, progress: nat) {
    && (forall i | 0 <= i < |storage| ::
          start <= storage[i].position &&
          Holds(memory, storage[i].data, storage[i].length, host, storage[i].position - start))
    && (usb != [] ==>
          start <= usb[0].position &&
          Holds(memory, usb[0].data, progress, host, usb[0].position - start))
  }

  /** Moving on keeps the bytes in place: offsets change and fresh halves hold nothing. */
  lemma HoldsHostKept(
    memory: seq<byte>, host: seq<byte>, start: nat, drained: nat, progress: nat,
    usb: seq<Query>, storage: seq<Query>, next: nat, usb': seq<Query>, storage': seq<Query>, next': nat, half: nat)
    requires HoldsHost(memory, host, start, usb, storage, progress)
    requires SameRanges(storage, storage') && Extends(usb, usb')
    requires Tiles(storage + usb, drained, next) && Tiles(storage' + usb', drained, next')
    requires usb == [] ==> progress == 0
    requires start <= drained && next' <= start + |host|
    requires forall query | query in usb' :: query.data <= half <= |memory|
    ensures HoldsHost(memory, host, start, usb', storage', progress)
    ensures Front(usb, next) == Front(usb', next')
  {
    hide Tiles;
    FrontKept(storage, usb, drained, next, storage', usb', next');
    TilesSplit(storage', usb', drained, next');
  }

  /** Filling a queue does not move its front. */
  lemma FrontKept(
    front: seq<Query>, back: seq<Query>, start: nat, next: nat, front': seq<Query>, back': seq<Query>, next': nat)
    requires SameRanges(front, front') && Extends(back, back')
    requires Tiles(front + back, start, next) && Tiles(front' + back', start, next')
    ensures Front(back, next) == Front(back', next')
  {
    if back == [] {
      assert front + back == front;
      TilesIgnoreOffsets(front, front', start, next);
      TilesSplit(front', back', start, next');
      TilesEnd(front', start, next, Front(back', next'));
    }
  }

  lemma TilesSplit(a: seq<Query>, b: seq<Query>, start: nat, end: nat)
    requires Tiles(a + b, start, end)
    ensures Tiles(a, start, Front(b, end)) && Tiles(b, Front(b, end), end)
    ensures start <= Front(b, end) <= end
  {
  }

  lemma TilesEnd(order: seq<Query>, start: nat, end: nat, end': nat)
    requires Tiles(order, start, end) && Tiles(order, start, end')
    ensures end == end'
  {
  }

  /** A write to one half leaves the bytes of the other half alone. */
  lemma OtherHalfKept(memory: seq<byte>, at: nat, patch: seq<byte>, data: nat, length: nat, source: seq<byte>, from: nat)
    requires at + |patch| <= |memory| && Holds(memory, data, length, source, from)
    requires data + length <= at || at + |patch| <= data
    ensures Holds(Overwrite(memory, at, patch), data, length, source, from)
  {
    var after := Overwrite(memory, at, patch);
    assert after[data..data + length] == memory[data..data + length];
  }

  /** A packet extends the bytes held by a half. */
  lemma PacketHeld(memory: seq<byte>, data: nat, length: nat, source: seq<byte>, from: nat, count: nat)
    requires Holds(memory, data, length, source, from)
    requires data + length + count <= |memory| && from + length + count <= |source|
    ensures Holds(Overwrite(memory, data + length, source[from + length..from + length + count]),
                  data, length + count, source, from)
  {
    var patch := source[from + length..from + length + count];
    var after := Overwrite(memory, data + length, patch);
    assert after[data..data + length] == memory[data..data + length];
    assert after[data..data + length + count] == after[data..data + length] + patch;
    assert source[from..from + length + count] == source[from..from + length] + patch;
  }

  lemma HalfSize(pool: seq<Query>, usb: seq<Query>, storage: seq<Query>, half: nat)
    requires Partition(pool, usb, storage, half)
    ensures forall q | q in usb || q in storage :: q.capacity == half && q.data <= half
  {
  }

  lemma HalvesApart(pool: seq<Query>, usb: seq<Query>, storage: seq<Query>, half: nat, q: Query, r: Query)
    requires Partition(pool, usb, storage, half) && q in usb && r in storage
    ensures q.capacity == half && r.capacity == half && q.data <= half && r.data <= half
    ensures q.data + half == r.data || r.data + half == q.data
  {
  }

  /** Bytes that arrive in the front half leave the complete halves alone. */
  lemma OtherHalvesKept(
    memory: seq<byte>, host: seq<byte>, start: nat, at: nat, patch: seq<byte>,
    pool: seq<Query>, usb: seq<Query>, storage: seq<Query>, half: nat, progress: nat, i: nat)
    requires HoldsHost(memory, host, start, usb, storage, progress) && usb != []
    requires Partition(pool, usb, storage, half) && i < |storage|
    requires usb[0].data <= at && at + |patch| <= usb[0].data + half && at + |patch| <= |memory|
    requires storage[i].length <= half
    ensures Holds(Overwrite(memory, at, patch), storage[i].data, storage[i].length, host, storage[i].position - start)
  {
    HalvesApart(pool, usb, storage, half, usb[0], storage[i]);
    OtherHalfKept(memory, at, patch, storage[i].data, storage[i].length, host, storage[i].position - start);
  }

  /** A packet for the front half arrives. */
  lemma PacketArrives(
    memory: seq<byte>, host: seq<byte>, start: nat, drained: nat, next: nat, progress: nat, count: nat,
    pool: seq<Query>, usb: seq<Query>, storage: seq<Query>, half: nat)
    requires HoldsHost(memory, host, start, usb, storage, progress) && usb != []
    requires Partition(pool, usb, storage, half) && Tiles(storage + usb, drained, next)
    requires start <= drained && next <= start + |host| && 2 * half <= |memory|
    requires progress + count <= usb[0].length
    ensures usb[0].data + progress + count <= |memory|
    ensures var from := usb[0].position - start + progress;
            && 0 <= from && from + count <= |host|
            && HoldsHost(Overwrite(memory, usb[0].data + progress, host[from..from + count]),
                         host, start, usb, storage, progress + count)
  {
    hide Partition, Tiles, Holds, Overwrite;
    FrontFits(pool, usb, storage, half, drained, next);
    var query := usb[0];
    var from := query.position - start + progress;
    PacketHeld(memory, query.data, progress, host, query.position - start, count);
    var patch := host[from..from + count];
    forall i | 0 <= i < |storage|
      ensures Holds(Overwrite(memory, query.data + progress, patch),
                    storage[i].data, storage[i].length, host, storage[i].position - start)
    {
      OtherHalvesKept(memory, host, start, query.data + progress, patch, pool, usb, storage, half, progress, i);
    }
  }

  lemma FrontFits(pool: seq<Query>, usb: seq<Query>, storage: seq<Query>, half: nat, drained: nat, next: nat)
    requires Partition(pool, usb, storage, half) && Tiles(storage + usb, drained, next) && usb != []
    ensures usb[0].length <= half && usb[0].data <= half
    ensures drained <= usb[0].position && usb[0].position + usb[0].length <= next
    ensures forall i | 0 <= i < |storage| :: storage[i].length <= half
  {
    TilesSplit(storage, usb, drained, next);
    HalfSize(pool, usb, storage, half);
  }

  /** The front query of one queue moves to the back of the other. */
  lemma PartitionPasses(pool: seq<Query>, from: seq<Query>, to: seq<Query>, half: nat)
    requires from != []
    ensures Partition(pool, from, to, half) ==> Partition(pool, from[1..], to + [from[0].(offset := 0)], half)
    ensures Partition(pool, to, from, half) ==> Partition(pool, to + [from[0].(offset := 0)], from[1..], half)
  {
  }

  lemma TilesPass(from: seq<Query>, to: seq<Query>, start: nat, end: nat)
    requires from != [] && Tiles(to + from, start, end)
    ensures Tiles(to + [from[0].(offset := 0)] + from[1..], start, end)
    ensures Front(from[1..], end) == from[0].position + from[0].length
    ensures 0 < from[0].length && (|from| == 2 ==> 0 < from[1].length)
  {
    assert to + from == to + [from[0]] + from[1..];
    TilesIgnoreOffsets(to + from, to + [from[0].(offset := 0)] + from[1..], start, end);
  }

  lemma HoldsFits(memory: seq<byte>, data: nat, length: nat, source: seq<byte>, from: nat)
    requires Holds(memory, data, length, source, from)
    ensures data + length <= |memory| && from + length <= |source|
  {
  }

  lemma HoldsNothing(memory: seq<byte>, data: nat, source: seq<byte>, from: nat)
    requires data <= |memory| && from <= |source|
    ensures Holds(memory, data, 0, source, from)
  {
  }

  /** A full half moves from the USB queue to the storage queue with its bytes. */
  lemma HalfArrives(
    memory: seq<byte>, host: seq<byte>, start: nat, drained: nat, next: nat, usb: seq<Query>, storage: seq<Query>)
    requires usb != [] && HoldsHost(memory, host, start, usb, storage, usb[0].length)
    requires Tiles(storage + usb, drained, next) && start <= drained && next <= start + |host|
    requires |usb| == 2 ==> usb[1].data <= |memory|
    ensures HoldsHost(memory, host, start, usb[1..], storage + [usb[0].(offset := 0)], 0)
  {
    hide Holds;
    TilesSplit(storage, usb, drained, next);
    if |usb| == 2 {
      HoldsNothing(memory, usb[1].data, host, usb[1].position - start);
    }
    var longer := storage + [usb[0].(offset := 0)];
    forall i | 0 <= i < |longer|
      ensures start <= longer[i].position
      ensures Holds(memory, longer[i].data, longer[i].length, host, longer[i].position - start)
    {
      if i < |storage| {
        assert longer[i] == storage[i];
      }
    }
  }

  /** The front query of a queue returns to the pool. */
  lemma PartitionReturns(pool: seq<Query>, from: seq<Query>, other: seq<Query>, half: nat)
    requires from != []
    ensures Partition(pool, from, other, half) ==> Partition(pool + [from[0]], from[1..], other, half)
    ensures Partition(pool, other, from, half) ==> Partition(pool + [from[0]], other, from[1..], half)
  {
  }

  /** The front query of the leading queue is finished: the rest tiles the rest of the range. */
  lemma TilesFinish(front: seq<Query>, back: seq<Query>, start: nat, end: nat)
    requires front != [] && Tiles(front + back, start, end)
    ensures front[0].position == start && 0 < front[0].length && start + front[0].length <= end
    ensures Tiles(front[1..] + back, start + front[0].length, end)
    ensures |front| == 2 ==> 0 < front[1].length
    ensures front[1..] == [] && back == [] ==> start + front[0].length == end
  {
    assert (front + back)[1..] == front[1..] + back;
  }

  lemma TilesFront(order: seq<Query>, start: nat, end: nat)
    requires Tiles(order, start, end)
    ensures order == [] <==> start == end
    ensures order != [] ==> order[0].position == start
  {
  }

  /** Storage whose range [start, done) holds the first bytes of the host and nothing else changed. */
  function Patched(initial: seq<byte>, start: nat, done: nat, host: seq<byte>): (r: seq<byte>)
    requires start <= done <= |initial| && done - start <= |host|
    ensures |r| == |initial|
  {
    initial[..start] + host[..done - start] + initial[done..]
  }

  /** A half written to the storage continues the patched range. */
  lemma HalfWritten(memory: seq<byte>, initial: seq<byte>, host: seq<byte>, start: nat, done: nat, data: nat, length: nat)
    requires start <= done && done + length <= |initial| && done + length - start <= |host|
    requires Holds(memory, data, length, host, done - start)
    ensures Overwrite(Patched(initial, start, done, host), done, memory[data..data + length])
         == Patched(initial, start, done + length, host)
  {
    var before, patch := Patched(initial, start, done, host), memory[data..data + length];
    assert before[..done] == initial[..start] + host[..done - start];
    assert before[done + length..] == initial[done + length..];
    assert host[..done + length - start] == host[..done - start] + patch;
  }

  /** The complete halves behind the written one still hold their bytes. */
  lemma HoldsHostRest(memory: seq<byte>, host: seq<byte>, start: nat, usb: seq<Query>, storage: seq<Query>, progress: nat)
    requires HoldsHost(memory, host, start, usb, storage, progress) && storage != []
    ensures HoldsHost(memory, host, start, usb, storage[1..], progress)
    ensures start <= storage[0].position
    ensures Holds(memory, storage[0].data, storage[0].length, host, storage[0].position - start)
  {
  }

  /** Every half holds the storage bytes of its range. */
  ghost predicate HoldsRanges(memory: seq<byte>, source: seq<byte>, queries: seq<Query>) {
    forall i | 0 <= i < |queries| ::
      Holds(memory, queries[i].data, queries[i].length, source, queries[i].position)
  }

  lemma HoldsRangesKept(memory: seq<byte>, source: seq<byte>, queries: seq<Query>, queries': seq<Query>)
    requires HoldsRanges(memory, source, queries) && SameRanges(queries, queries')
    ensures HoldsRanges(memory, source, queries')
  {
    forall i | 0 <= i < |queries'|
      ensures Holds(memory, queries'[i].data, queries'[i].length, source, queries'[i].position)
    {
      assert queries[i].(offset := 0) == queries'[i].(offset := 0);
    }
  }

  lemma HoldsRangesRest(memory: seq<byte>, source: seq<byte>, queries: seq<Query>)
    requires HoldsRanges(memory, source, queries) && queries != []
    ensures HoldsRanges(memory, source, queries[1..])
  {
  }

  lemma HoldsRangesPrefix(memory: seq<byte>, source: seq<byte>, queries: seq<Query>, query: Query)
    requires HoldsRanges(memory, source, queries + [query])
    ensures HoldsRanges(memory, source, queries)
  {
    forall i | 0 <= i < |queries|
      ensures Holds(memory, queries[i].data, queries[i].length, source, queries[i].position)
    {
      assert (queries + [query])[i] == queries[i];
    }
  }

  /** A storage read fills its half and leaves the other half alone. */
  lemma ReadArrives(
    memory: seq<byte>, source: seq<byte>, pool: seq<Query>, usb: seq<Query>, storage: seq<Query>,
    half: nat, drained: nat, next: nat)
    requires HoldsRanges(memory, source, usb) && storage != []
    requires Partition(pool, usb, storage, half) && Tiles(usb + storage, drained, next)
    requires next <= |source| && 2 * half <= |memory|
    ensures var query := storage[0];
            && query.position + query.length <= |source| && query.data + query.length <= |memory|
            && HoldsRanges(
                 Overwrite(memory, query.data, source[query.position..query.position + query.length]),
                 source, usb + [query.(offset := 0)])
  {
    hide Partition, Tiles, Overwrite, Holds;
    FrontReads(pool, usb, storage, half, drained, next);
    var query := storage[0];
    var patch := source[query.position..query.position + query.length];
    var after := Overwrite(memory, query.data, patch);
    var longer := usb + [query.(offset := 0)];
    forall i | 0 <= i < |longer|
      ensures Holds(after, longer[i].data, longer[i].length, source, longer[i].position)
    {
      if i < |usb| {
        HalvesApart(pool, usb, storage, half, usb[i], query);
        OtherHalfKept(memory, query.data, patch, usb[i].data, usb[i].length, source, usb[i].position);
      } else {
        HalfFilled(memory, query.data, patch, source, query.position);
      }
    }
  }

  lemma HalfFilled(memory: seq<byte>, data: nat, patch: seq<byte>, source: seq<byte>, from: nat)
    requires data + |patch| <= |memory| && from + |patch| <= |source|
    requires patch == source[from..from + |patch|]
    ensures Holds(Overwrite(memory, data, patch), data, |patch|, source, from)
  {
    assert Overwrite(memory, data, patch)[data..data + |patch|] == patch;
  }

  lemma FrontReads(pool: seq<Query>, usb: seq<Query>, storage: seq<Query>, half: nat, drained: nat, next: nat)
    requires Partition(pool, usb, storage, half) && Tiles(usb + storage, drained, next) && storage != []
    ensures storage[0].length <= half && storage[0].data <= half
    ensures storage[0].position + storage[0].length <= next
    ensures forall i | 0 <= i < |usb| :: usb[i].length <= half
  {
    TilesSplit(usb, storage, drained, next);
    HalfSize(pool, usb, storage, half);
  }

  lemma SliceOfSlice(s: seq<byte>, from: nat, length: nat, offset: nat, count: nat)
    requires from + length <= |s| && offset + count <= length
    ensures s[from..from + length][offset..offset + count] == s[from + offset..from + offset + count]
  {
    var inner, direct := s[from..from + length][offset..offset + count], s[from + offset..from + offset + count];
    assert forall i | 0 <= i < count :: inner[i] == direct[i];
  }

  /** A packet of a half carries the storage bytes of its position. */
  lemma PacketCarries(memory: seq<byte>, data: nat, length: nat, source: seq<byte>, from: nat, start: nat, offset: nat, count: nat)
    requires Holds(memory, data, length, source, from)
    requires start <= from && offset + count <= length
    ensures source[start..from + offset] + memory[data + offset..data + offset + count]
         == source[start..from + offset + count]
  {
    SliceOfSlice(memory, data, length, offset, count);
    SliceOfSlice(source, from, length, offset, count);
  }
}
