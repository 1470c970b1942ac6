/**
 * Scatter-gather descriptor ring of platform/lpc/gpdma_list.c; the Bouffalo Lab
 * twin platform/bouffalo/dma_list.c runs the same protocol.
 *
 * The driver appends descriptors to a circular list in memory while the DMA engine
 * walks the links on its own. The engine copies the link of a descriptor when it
 * starts that descriptor, so a link written later may be overlooked; the engine then
 * stops and the interrupt handler restarts it from a recomputed slot.
 */
module DmaRing {
  import opened Common

  datatype Chunk = Chunk(source: nat, destination: nat, control: nat)

  /** Descriptor in memory; `next` holds the slot of the linked descriptor. */
  datatype Entry = Entry(source: nat, destination: nat, control: nat, next: Option<nat>) {
    function Content(): Chunk { Chunk(source, destination, control) }
  }

  datatype State = Idle | Ready | Busy | Done | Error

  /** Channel registers: the loaded descriptor and the link latched together with it. */
  datatype Engine = Stopped | Running(chunk: Chunk, link: Option<nat>)

  /** Slot reached by walking `steps` positions, at most `n`, in a ring of `n` slots. */
  function Walk(slot: nat, steps: nat, n: nat): nat {
    if slot + steps < n then slot + steps else slot + steps - n
  }

  ghost function LinkAfter(first: nat, j: nat, count: nat, n: nat): Option<nat> {
    if j + 1 < count then Some(Walk(first, j + 1, n)) else None
  }

  /** The live chunks sit in consecutive slots from `first` and are linked in order. */
  ghost predicate Linked(ring: seq<Entry>, first: nat, live: seq<Chunk>) {
    && first < |ring|
    && |live| <= |ring|
    && forall j | 0 <= j < |live| ::
         && ring[Walk(first, j, |ring|)].Content() == live[j]
         && ring[Walk(first, j, |ring|)].next == LinkAfter(first, j, |live|, |ring|)
  }

  /** Releasing the oldest chunk keeps the rest linked. */
  lemma ReleaseKeepsLinks(ring: seq<Entry>, first: nat, live: seq<Chunk>)
    requires Linked(ring, first, live) && live != []
    ensures Linked(ring, Walk(first, 1, |ring|), live[1..])
  {
    var n, next := |ring|, Walk(first, 1, |ring|);
    forall j | 0 <= j < |live| - 1
      ensures ring[Walk(next, j, n)].Content() == live[1..][j]
      ensures ring[Walk(next, j, n)].next == LinkAfter(next, j, |live| - 1, n)
    {
      assert Walk(next, j, n) == Walk(first, j + 1, n);
      assert live[1..][j] == live[j + 1];
    }
  }

  /** A write to the slot behind the youngest chunk is invisible to the live chunks. */
  lemma FreeSlotKeepsLinks(ring: seq<Entry>, first: nat, live: seq<Chunk>, entry: Entry)
    requires Linked(ring, first, live) && |live| < |ring|
    ensures Linked(ring[Walk(first, |live|, |ring|) := entry], first, live)
  {
  }

  /** Linking the filled slot to its predecessor makes the new chunk live in one write. */
  lemma LinkExtends(ring: seq<Entry>, first: nat, live: seq<Chunk>, chunk: Chunk, ring': seq<Entry>)
    requires Linked(ring, first, live) && |live| < |ring|
    requires var slot := Walk(first, |live|, |ring|);
             ring[slot].Content() == chunk && ring[slot].next == None
    requires var slot := Walk(first, |live|, |ring|);
             if live == [] then ring' == ring else
               var previous := Walk(first, |live| - 1, |ring|);
               ring' == ring[previous := ring[previous].(next := Some(slot))]
    ensures Linked(ring', first, live + [chunk])
  {
    var n, longer := |ring|, live + [chunk];
    forall j | 0 <= j < |longer|
      ensures ring'[Walk(first, j, n)].Content() == longer[j]
      ensures ring'[Walk(first, j, n)].next == LinkAfter(first, j, |longer|, n)
    {
      if j < |live| {
        assert longer[j] == live[j];
      }
    }
  }

  /** What can happen to a channel between two driver calls. */
  datatype Event =
    | Appends(chunk: Chunk, env: nat -> nat, masked: bool)
    | Enables
    | Completes
    | Interrupts

  /** Statements of an append between which the end of the list may be reported. */
  datatype Point = Entered | Moved | Filled | Chained | Counted

  /** Slot of the first stalled chunk when `queued` chunks lie behind the index. */
  function StalledSlot(index: nat, queued: nat, capacity: nat): nat
    requires queued <= index + capacity
  {
    if queued <= index then index - queued else index + capacity - queued
  }

  class Channel {
    const capacity: nat
    const list: array<Entry>
    var index: nat
    var queued: nat
    var state: State

    // Hardware: the engine and its terminal count interrupt flag
    var engine: Engine
    var pending: bool

    // Chunks appended and chunks moved by the engine, oldest first
    ghost var appended: seq<Chunk>
    ghost var transferred: seq<Chunk>
    // Number of chunks whose interrupt has been handled, and the slot of the next one
    ghost var handled: nat
    ghost var first: nat

    ghost function Live(): seq<Chunk>
      reads this
      requires handled <= |appended|
    {
      appended[handled..]
    }

    /** Live chunks finished by the engine: at most one, as interrupts do not coalesce. */
    ghost function Finished(): nat
      reads this
    {
      if pending then 1 else 0
    }

    /** Slot that the next append fills. */
    ghost function Tail(): nat
      reads this
      requires handled <= |appended|
    {
      Walk(first, |appended| - handled, capacity)
    }

    /** What the engine may be doing while the driver is at any point of any function. */
    ghost predicate Core()
      reads this, list
    {
      && capacity == list.Length
      && first < capacity
      && |appended| <= handled + capacity
      && handled + Finished() <= |appended|
      && Linked(list[..], first, Live())
      && transferred <= appended && |transferred| == handled + Finished()
      && (engine.Running? ==>
            && |transferred| < |appended|
            && engine.chunk == appended[|transferred|]
            && (engine.link.Some? ==>
                  && |transferred| + 1 < |appended|
                  && engine.link.value == Walk(first, Finished() + 1, capacity)))
      && (if state == Busy then engine.Running? || pending else engine.Stopped? && !pending)
    }

    /** The indices account for every live chunk; an unfinished append breaks this. */
    ghost predicate Settled()
      reads this
      requires handled <= |appended|
    {
      queued == |appended| - handled && index == Tail()
    }

    /** What holds between two driver calls. */
    ghost predicate Valid()
      reads this, list
    {
      && 0 < capacity == list.Length
      && index < capacity
      && queued <= capacity
      && (if state == Error then transferred <= appended && engine.Stopped? && !pending else
            && Core()
            && Settled()
            && (state == Ready ==> first == 0 < queued)
            && (state == Idle ==> first == 0 == queued)
            && (state == Done ==> 0 == queued))
    }

    lemma NothingQueued()
      requires Valid() && (state == Idle || state == Done)
      ensures queued == 0
    {
    }

    lemma OldestIsFirst()
      requires Core() && handled < |appended|
      ensures list[first].Content() == appended[handled]
    {
      assert Walk(first, 0, capacity) == first && Live()[0] == appended[handled];
    }

    constructor (number: nat)
      requires 0 < number
      ensures Valid() && fresh(list) && capacity == number
      ensures state == Idle && queued == 0 && appended == [] && transferred == []
    {
      capacity := number;
      list := new Entry[number](_ => Entry(0, 0, 0, None));
      index, queued, state := 0, 0, Idle;
      engine, pending := Stopped, false;
      appended, transferred, handled, first := [], [], 0, 0;
    }

    /** Loads the oldest unfinished descriptor and latches its link. */
    method StartTransfer(slot: nat)
      requires handled + Finished() < |appended| && Linked(list[..], first, Live())
      requires capacity == list.Length && slot == Walk(first, Finished(), capacity)
      modifies this`engine
      ensures engine == Running(list[slot].Content(), list[slot].next)
      ensures engine.chunk == appended[handled + Finished()]
      ensures engine.link.Some? ==>
                && handled + Finished() + 1 < |appended|
                && engine.link.value == Walk(first, Finished() + 1, capacity)
    {
      assert appended[handled..][Finished()] == appended[handled + Finished()];
      engine := Running(list[slot].Content(), list[slot].next);
    }

    /**
     * Hardware: the engine completes its chunk, raises the interrupt and follows the
     * latched link. An interrupt is handled before the next chunk completes.
     */
    method CompleteChunk()
      requires Core() && engine.Running? && !pending
      modifies this`engine, this`pending, this`transferred
      ensures Core() && pending
      ensures transferred == old(transferred) + [old(engine).chunk]
      ensures engine.Running? <==> old(engine).link.Some?
    {
      hide Linked;
      transferred := transferred + [engine.chunk];
      pending := true;
      match engine.link {
        case Some(slot) => StartTransfer(slot);
        case None => engine := Stopped;
      }
    }

    /**
     * Interrupt handler; `res` is E_BUSY when the engine continued and E_OK when it
     * stopped on a null link. With the engine running the handler is harmless between
     * any two statements of an append; with the engine stopped it relies on indices
     * that an unfinished append has not settled (see RepeatedChunk).
     */
    method InterruptHandler(res: Result) returns (event: bool)
      requires Core() && state == Busy && 0 < queued
      requires res == E_BUSY ==> pending && engine.Running?
      requires res == E_OK ==> pending && engine.Stopped? && (queued == 1 || Settled())
      modifies this
      ensures event && queued == old(queued) - 1 && index == old(index)
      ensures appended == old(appended) && transferred == old(transferred)
      ensures res !in {E_BUSY, E_OK} ==> state == Error && engine.Stopped? && !pending
      ensures res in {E_BUSY, E_OK} ==>
                && Core() && !pending && handled == old(handled) + 1 && Tail() == old(Tail())
                && |transferred| == handled
      ensures res == E_BUSY ==> engine == old(engine) && state == Busy
      ensures res == E_OK ==> state == (if queued == 0 then Done else Busy)
      // Done exactly when every appended chunk has been transferred
      ensures old(Settled()) && state != Error ==> (state == Done <==> transferred == appended)
    {
      hide Linked;
      event := false;
      queued := queued - 1;

      match res {
        case E_OK =>
          Release();
          if 0 < queued {
            Restart();
            event := true;
          } else {
            state := Done;
          }
        case E_BUSY =>
          Release();
          event := true;
        case _ =>
          // The controller disables a faulty channel
          engine, pending := Stopped, false;
          state := Error;
      }

      if state != Busy {
        event := true;
      }
    }

    /** The interrupt service routine, which derives the result from the enable bit. */
    method Interrupt() returns (event: bool)
      requires Valid() && pending
      modifies this
      ensures Valid() && !pending && event
      ensures queued == old(queued) - 1 && handled == old(handled) + 1
      ensures queued == |appended| - handled && |transferred| == handled
      ensures appended == old(appended) && transferred == old(transferred)
      // Done exactly when every appended chunk has been transferred
      ensures state == (if transferred == appended then Done else Busy)
    {
      hide Linked;
      event := InterruptHandler(if engine.Running? then E_BUSY else E_OK);
    }

    /** Underrun: the first stalled chunk is `queued` slots behind the index. */
    method Restart()
      requires capacity == list.Length && first < capacity
      requires handled < |appended| <= handled + capacity && Settled() && !pending
      requires Linked(list[..], first, Live())
      modifies this`engine
      ensures engine.Running? && engine.chunk == appended[handled]
      ensures engine.link.Some? ==>
                handled + 1 < |appended| && engine.link.value == Walk(first, 1, capacity)
    {
      hide Linked;
      StartTransfer(StalledSlot(index, queued, capacity));
    }

    /** The interrupt flag is cleared; the oldest live chunk gives its slot back. */
    method Release()
      requires Core() && pending
      modifies this`pending, this`handled, this`first
      ensures engine.Running? ==> Core()
      ensures !pending && handled == old(handled) + 1 <= |appended|
      ensures first == Walk(old(first), 1, capacity) && Tail() == old(Tail())
      ensures |transferred| == handled
      ensures Linked(list[..], first, Live())
    {
      ReleaseKeepsLinks(list[..], first, Live());
      assert Live()[1..] == appended[handled + 1..];
      pending, handled, first := false, handled + 1, Walk(first, 1, capacity);
    }

    /** Any number of chunk completions and of interrupts that find the engine running. */
    method Environment(steps: nat, masked: bool)
      requires Core() && |appended| <= handled + queued + 1
      modifies this
      ensures Core()
      ensures state == old(state) && index == old(index) && Tail() == old(Tail())
      ensures appended == old(appended) && old(transferred) <= transferred
      ensures handled + queued == old(handled + queued) && old(handled) <= handled
      ensures masked ==> handled == old(handled)
      ensures handled == |appended| <==> old(handled == |appended|)
      ensures old(state) != Busy ==> first == old(first) && transferred == old(transferred)
    {
      hide Linked;
      for _ := 0 to steps
        invariant Core()
        invariant state == old(state) && index == old(index) && Tail() == old(Tail())
        invariant appended == old(appended) && old(transferred) <= transferred
        invariant handled + queued == old(handled + queued) && old(handled) <= handled
        invariant masked ==> handled == old(handled)
        invariant handled == |appended| <==> old(handled == |appended|)
        invariant old(state) != Busy ==> first == old(first) && transferred == old(transferred)
      {
        if engine.Running? && !pending {
          CompleteChunk();
        } else if engine.Running? && !masked {
          var _ := InterruptHandler(E_BUSY);
        }
      }
    }

    /**
     * `channelAppend`, with the environment acting between its statements. The caller
     * masks interrupts that report a stopped engine; the asserted capacity is a demand
     * on the caller.
     */
    method Append(chunk: Chunk, env: nat -> nat, masked: bool)
      requires Valid() && queued < capacity
      modifies this, list
      ensures Valid()
      ensures appended == (if old(state) == Error then [] else old(appended)) + [chunk]
      ensures (if old(state) == Error then [] else old(transferred)) <= transferred
      ensures old(state) != Busy && old(state) != Error ==> transferred == old(transferred)
      ensures state == (if old(state) == Busy then Busy else Ready)
      ensures masked ==>
                && handled == (if old(state) == Error then 0 else old(handled))
                && queued == (if old(state) == Error then 1 else old(queued) + 1)
    {
      hide Linked;
      if state == Done || state == Error {
        Rewind();
      }
      Extend(chunk, env, masked);
    }

    /** The part of an append that the engine can observe. */
    method Extend(chunk: Chunk, env: nat -> nat, masked: bool)
      requires Core() && Settled() && queued < capacity
      requires state == Busy || (first == 0 && state != Done)
      modifies this, list
      ensures Core() && Settled()
      ensures appended == old(appended) + [chunk] && old(transferred) <= transferred
      ensures handled < |appended|
      ensures if old(state) == Busy then state == Busy else
                state == Ready && first == 0 && transferred == old(transferred)
      ensures masked ==> handled == old(handled)
    {
      hide Linked;
      var slot, previous := Reserve(env, masked);
      Fill(slot, chunk, env, masked);
      Link(slot, previous, chunk);
      Commit(env, masked);
    }

    /** Picks the free slot and its predecessor, then moves the index. */
    method Reserve(env: nat -> nat, masked: bool) returns (slot: nat, previous: Option<nat>)
      requires Core() && Settled() && queued < capacity
      modifies this
      ensures slot == old(index)
      ensures Core() && slot == Tail() && |appended| - handled == queued < capacity
      ensures previous == if queued == 0 then None else
                Some(if slot != 0 then slot - 1 else capacity - 1)
      ensures queued <= old(queued)
      ensures index == Walk(slot, 1, capacity) && state == old(state)
      ensures old(state) != Busy ==> first == old(first) && transferred == old(transferred)
      ensures appended == old(appended) && old(transferred) <= transferred
      ensures masked ==> handled == old(handled)
    {
      hide Linked;
      slot := index;
      previous := None;
      if 0 < queued {
        previous := Some(if slot != 0 then slot - 1 else capacity - 1);
      }
      Environment(env(0), masked);
      index := index + 1;
      if capacity <= index {
        index := 0;
      }
    }

    /** Fills the free descriptor field by field. */
    method Fill(slot: nat, chunk: Chunk, env: nat -> nat, masked: bool)
      requires handled <= |appended| && slot < list.Length
      requires Core() && slot == Tail() && |appended| - handled == queued < capacity
      modifies this, list
      ensures Core() && slot == Tail() && |appended| - handled == queued < capacity
      ensures list[..] == old(list[..])[slot := Entry(chunk.source, chunk.destination, chunk.control, None)]
      ensures state == old(state) && index == old(index)
      ensures appended == old(appended) && old(transferred) <= transferred
      ensures queued <= old(queued)
      ensures queued == 0 <==> old(queued) == 0
      ensures old(state) != Busy ==> first == old(first) && transferred == old(transferred)
      ensures masked ==> handled == old(handled)
    {
      hide Core;
      Write(slot, list[slot].(source := chunk.source), env(1), masked);
      Write(slot, list[slot].(destination := chunk.destination), env(2), masked);
      Write(slot, list[slot].(control := chunk.control), env(3), masked);
      Write(slot, list[slot].(next := None), env(4), masked);
    }

    /** Counts the new chunk. */
    method Commit(env: nat -> nat, masked: bool)
      requires Core() && |appended| == handled + queued + 1
      requires index == Tail() && (state == Busy || handled < |appended|)
      modifies this
      ensures Core() && Settled()
      ensures appended == old(appended) && old(transferred) <= transferred
      ensures handled < |appended|
      ensures if old(state) == Busy then state == Busy else
                state == Ready && transferred == old(transferred) && first == old(first)
      ensures masked ==> handled == old(handled)
    {
      hide Linked;
      Environment(env(5), masked);
      queued := queued + 1;
      if state != Busy {
        state := Ready;
      }
    }

    /** Runs the engine to its end; every interrupt but the last is handled on the way. */
    method EndOfList() returns (left: nat)
      requires Core() && state == Busy && |appended| <= handled + queued + 1
      modifies this
      ensures Core() && state == Busy && engine.Stopped? && left == queued
      ensures index == old(index) && Tail() == old(Tail())
      ensures appended == old(appended) && old(transferred) <= transferred
      ensures handled + queued == old(handled + queued) && queued <= old(queued)
    {
      hide Linked;
      while engine.Running?
        invariant Core() && state == Busy
        invariant index == old(index) && Tail() == old(Tail())
        invariant appended == old(appended) && old(transferred) <= transferred
        invariant handled + queued == old(handled + queued) && queued <= old(queued)
        decreases |appended| - |transferred|
      {
        if pending {
          var _ := InterruptHandler(E_BUSY);
        }
        CompleteChunk();
      }
      left := queued;
    }

    /**
     * An append to a running list without a mask: the end of the list is reported at
     * `point`, when the counter stands at `left`. `next` is the slot that the driver
     * makes the engine load after that, by the restart or by the next `Enable`, and
     * `oldest` the slot of the oldest chunk that is not transferred yet. They agree, and
     * the append is then complete, exactly under the stated conditions; where they
     * differ only the slot is computed.
     */
    method InterruptedAppend(chunk: Chunk, env: nat -> nat, point: Point)
      returns (left: nat, next: nat, ghost oldest: Option<nat>)
      requires Valid() && state == Busy && queued < capacity
      modifies this, list
      ensures left <= old(queued) + (if point == Counted then 1 else 0)
      ensures point != Chained ==> 1 <= left
      ensures oldest == Some(next) <==>
                match point
                case Entered => 1 < left || old(index) == 0
                case Counted => 1 < left
                case _ => left == 1 && old(index) == 0
      ensures oldest == Some(next) ==>
                && Valid() && state == (if left == 1 then Ready else Busy)
                && appended == old(appended) + [chunk] && old(transferred) <= transferred
    {
      hide Linked, Core;
      if point == Entered {
        left, next, oldest := EndAtEntry(chunk, env);
        return;
      }
      var slot, previous := Reserve(env, false);
      if point == Moved {
        left, next, oldest := EndBeforeLink(slot, previous, chunk, false);
        return;
      }
      Fill(slot, chunk, env, false);
      if point == Filled {
        left, next, oldest := EndBeforeLink(slot, previous, chunk, true);
      } else {
        Link(slot, previous, chunk);
        if point == Chained {
          left, next, oldest := EndBeforeCount();
        } else {
          left, next, oldest := EndAfterCount();
        }
      }
    }

    /** The end of the list is reported before the index moves. */
    method EndAtEntry(chunk: Chunk, env: nat -> nat)
      returns (left: nat, next: nat, ghost oldest: Option<nat>)
      requires Valid() && state == Busy && queued < capacity
      modifies this, list
      ensures 1 <= left <= old(queued)
      ensures oldest == Some(next) <==> 1 < left || old(index) == 0
      ensures oldest == Some(next) ==>
                && Valid() && state == (if left == 1 then Ready else Busy)
                && appended == old(appended) + [chunk] && old(transferred) <= transferred
    {
      hide Linked;
      var slot := index;
      var previous := Some(if slot != 0 then slot - 1 else capacity - 1);
      left := EndOfList();
      next := StalledSlot(index, left - 1, capacity);
      var _ := InterruptHandler(E_OK);
      if left == 1 {
        index := Walk(slot, 1, capacity);
        next, oldest := FillAfterEnd(slot, previous, chunk);
      } else {
        oldest := Some(first);
        Extend(chunk, env, false);
      }
    }

    /** The end of the list is reported while the moved index points behind the free slot. */
    method EndBeforeLink(slot: nat, previous: Option<nat>, chunk: Chunk, filled: bool)
      returns (left: nat, next: nat, ghost oldest: Option<nat>)
      requires Core() && state == Busy && |appended| == handled + queued && queued < capacity
      requires slot == Tail() && index == Walk(slot, 1, capacity)
      requires previous.Some? ==> previous.value < capacity && previous.value != slot
      requires filled ==> list[slot] == Entry(chunk.source, chunk.destination, chunk.control, None)
      modifies this, list
      ensures 1 <= left <= old(queued)
      ensures oldest == Some(next) <==> left == 1 && slot == 0
      ensures oldest == Some(next) ==>
                && Valid() && state == Ready
                && appended == old(appended) + [chunk] && old(transferred) <= transferred
    {
      hide Linked;
      left := EndOfList();
      if 1 < left {
        next, oldest := Skips(left);
        return;
      }
      var _ := InterruptHandler(E_OK);
      if filled {
        next, oldest := LinkAfterEnd(slot, previous, chunk);
      } else {
        next, oldest := FillAfterEnd(slot, previous, chunk);
      }
    }

    /** The end of the list is reported when the new chunk is linked but not counted. */
    method EndBeforeCount() returns (left: nat, next: nat, ghost oldest: Option<nat>)
      requires Core() && state == Busy && |appended| == handled + queued + 1
      requires index == Tail() && index < capacity
      modifies this
      ensures appended == old(appended) && old(transferred) <= transferred
      ensures left <= old(queued)
      // The restart uses a slot outside the list
      ensures left == 0 ==> capacity <= next
      ensures oldest == Some(next) <==> left == 1 && old(index) == Walk(0, 1, capacity)
      ensures oldest == Some(next) ==> Valid() && state == Ready
    {
      hide Linked;
      left := EndOfList();
      if left == 0 {
        // The counter of the type size_t wraps around
        next, oldest := index + capacity + 1, None;
      } else if left == 1 {
        var _ := InterruptHandler(E_OK);
        Commit((_: nat) => 0, false);
        next, oldest := 0, Some(first);
      } else {
        next, oldest := Skips(left);
      }
    }

    /** The end of the list is reported between the count and the check of the state. */
    method EndAfterCount() returns (left: nat, next: nat, ghost oldest: Option<nat>)
      requires Core() && state == Busy && |appended| == handled + queued + 1
      requires index == Tail() && index < capacity && queued < capacity
      modifies this
      ensures appended == old(appended) && old(transferred) <= transferred
      ensures 1 <= left <= old(queued) + 1
      ensures oldest == Some(next) <==> 1 < left
      ensures oldest == Some(next) ==> Valid() && state == Busy
    {
      hide Linked;
      queued := queued + 1;
      left := EndOfList();
      next := if left == 1 then 0 else StalledSlot(index, left - 1, capacity);
      var _ := InterruptHandler(E_OK);
      oldest := if left == 1 then None else Some(first);
      if state != Busy {
        state := Ready;
      }
    }

    /** The moved index makes the restart skip the oldest chunk. */
    method Skips(left: nat) returns (next: nat, ghost oldest: Option<nat>)
      requires first < capacity && 1 < left < capacity
      requires index == Walk(Walk(first, left, capacity), 1, capacity)
      ensures next == Walk(first, 2, capacity)
      ensures oldest == Some(Walk(first, 1, capacity)) && oldest != Some(next)
    {
      next, oldest := StalledSlot(index, left - 1, capacity), Some(Walk(first, 1, capacity));
    }

    /** The rest of an append after the handler has found nothing more to do. */
    method FillAfterEnd(slot: nat, previous: Option<nat>, chunk: Chunk)
      returns (next: nat, ghost oldest: Option<nat>)
      requires Core() && state == Done && queued == 0 && handled == |appended|
      requires slot == Tail() && index == Walk(slot, 1, capacity) && 1 < capacity
      requires previous.Some? ==> previous.value < capacity && previous.value != slot
      modifies this, list
      ensures next == 0 && oldest == Some(slot)
      ensures appended == old(appended) + [chunk] && transferred == old(transferred)
      ensures slot == 0 ==> Valid() && state == Ready
    {
      hide Linked;
      Fill(slot, chunk, (_: nat) => 0, false);
      next, oldest := LinkAfterEnd(slot, previous, chunk);
    }

    method LinkAfterEnd(slot: nat, previous: Option<nat>, chunk: Chunk)
      returns (next: nat, ghost oldest: Option<nat>)
      requires Core() && state == Done && queued == 0 && handled == |appended|
      requires slot == Tail() && index == Walk(slot, 1, capacity) && 1 < capacity
      requires previous.Some? ==> previous.value < capacity && previous.value != slot
      requires list[slot] == Entry(chunk.source, chunk.destination, chunk.control, None)
      modifies this, list
      ensures next == 0 && oldest == Some(slot)
      ensures appended == old(appended) + [chunk] && transferred == old(transferred)
      ensures slot == 0 ==> Valid() && state == Ready
    {
      if previous.Some? {
        list[previous.value] := list[previous.value].(next := Some(slot));
      }
      assert Live() == [];
      LinkExtends(list[..], first, [], chunk, list[..]);
      appended := appended + [chunk];
      assert Live() == [chunk];
      hide Linked;
      Commit((_: nat) => 0, false);
      next, oldest := 0, Some(first);
    }

    /** The channel is idle; the next list starts from slot 0 again. */
    method Rewind()
      requires Valid() && (state == Done || state == Error)
      modifies this
      ensures Valid() && state == Idle
      ensures appended == (if old(state) == Error then [] else old(appended))
      ensures transferred == (if old(state) == Error then [] else old(transferred))
      ensures handled == (if old(state) == Error then 0 else old(handled))
    {
      index := 0;
      queued := 0;
      if state == Error {
        appended, transferred, handled := [], [], 0;
      }
      first, state := 0, Idle;
    }

    /** One memory write to the free slot, then some activity of the environment. */
    method Write(slot: nat, entry: Entry, steps: nat, masked: bool)
      requires Core() && slot == Tail() && |appended| - handled == queued < capacity
      modifies this, list
      ensures handled <= |appended| && slot < list.Length
      ensures Core() && slot == Tail() && |appended| - handled == queued < capacity
      ensures list[..] == old(list[..])[slot := entry]
      ensures state == old(state) && index == old(index)
      ensures appended == old(appended) && old(transferred) <= transferred
      ensures queued <= old(queued)
      ensures handled == |appended| <==> old(handled == |appended|)
      ensures old(state) != Busy ==> first == old(first) && transferred == old(transferred)
      ensures masked ==> handled == old(handled)
    {
      FreeSlotKeepsLinks(list[..], first, Live(), entry);
      list[slot] := entry;
      Environment(steps, masked);
    }

    /** The write that makes the filled slot reachable for the engine. */
    method Link(slot: nat, previous: Option<nat>, ghost chunk: Chunk)
      requires Core() && slot == Tail() && |appended| - handled == queued < capacity
      requires list[slot] == Entry(chunk.source, chunk.destination, chunk.control, None)
      requires previous == if queued == 0 then None else
                 Some(if slot != 0 then slot - 1 else capacity - 1)
      modifies this`appended, list
      ensures Core() && appended == old(appended) + [chunk]
    {
      ghost var ring, live := list[..], Live();
      if previous.Some? {
        assert previous.value == Walk(first, |live| - 1, capacity);
        list[previous.value] := list[previous.value].(next := Some(slot));
      }
      LinkExtends(ring, first, live, chunk, list[..]);
      appended := appended + [chunk];
      assert Live() == live + [chunk];
    }

    /** Starts the prepared list; fails when another object owns the channel. */
    method Enable(available: bool) returns (res: Result)
      requires Valid() && state == Ready
      modifies this`engine, this`state
      ensures Valid() && appended == old(appended) && transferred == old(transferred)
      ensures queued == old(queued) && index == old(index) && handled == old(handled)
      ensures res == (if available then E_OK else E_BUSY)
      ensures state == (if available then Busy else Error)
    {
      hide Linked;
      if !available {
        state := Error;
        return E_BUSY;
      }
      state := Busy;
      StartTransfer(0);
      return E_OK;
    }

    /** Stops the engine in the middle of a chunk; completed chunks stay in order. */
    method Disable()
      requires Valid() && !pending
      modifies this`engine, this`state
      ensures engine.Stopped? && transferred <= appended
      ensures state == if old(state) == Busy then Done else old(state)
    {
      if state == Busy {
        engine, state := Stopped, Done;
      }
    }

    /** Forgets the list, which is safe exactly when the engine has been disabled before. */
    method Clear()
      requires capacity == list.Length && 0 < capacity
      modifies this
      ensures state == Idle && index == 0 && queued == 0 && appended == [] && transferred == []
      ensures engine == old(engine) && pending == old(pending)
      ensures Valid() <==> engine.Stopped? && !pending
    {
      index, queued, state := 0, 0, Idle;
      appended, transferred, handled, first := [], [], 0, 0;
    }

    /**
     * `channelResidue`, with the transfers that the control register shows. While the engine
     * runs, a count is given only if no interrupt is pending, and it is what is left of the
     * oldest unfinished chunk.
     */
    method Residue(transfers: nat, width: nat) returns (res: Result, count: nat, ghost slot: nat)
      requires Valid()
      ensures slot < capacity && count == transfers * width
      ensures state == Idle || state == Ready ==> res == E_ERROR
      ensures state == Busy ==> slot == first
      ensures state == Busy ==> (res == E_OK <==> list[slot].next == if engine.Running? then engine.link else None)
      ensures res == E_OK && state == Busy && engine.Running? ==>
                !pending && engine.chunk == list[slot].Content() == appended[|transferred|]
    {
      var oldest := index + capacity - queued;
      if capacity <= oldest {
        oldest := oldest - capacity;
      }
      slot, count := oldest, transfers * width;
      if state == Idle || state == Ready {
        return E_ERROR, count, slot;
      }
      if state == Busy {
        assert oldest == Walk(first, 0, capacity) && Live()[0] == appended[handled];
      }
      var link := if engine.Running? then engine.link else None;
      res := if link == list[oldest].next then E_OK else E_ERROR;
    }

    /**
     * Every interleaving of appends, completions and interrupts: the chunks transferred
     * are a prefix of the chunks appended, in order and each once, and the channel is
     * done only when nothing is left. Events that cannot happen in a state are skipped.
     */
    method Run(events: seq<Event>) returns (accepted: seq<Chunk>)
      requires Valid() && state != Error
      modifies this, list
      ensures Valid() && state != Error
      ensures appended == old(appended) + accepted
      ensures old(transferred) <= transferred <= appended
      ensures state == Done ==> transferred == appended
      ensures state == Busy ==> |transferred| < |appended| || pending
    {
      hide Linked;
      accepted := [];
      for k := 0 to |events|
        invariant Valid() && state != Error
        invariant appended == old(appended) + accepted
        invariant old(transferred) <= transferred
      {
        var more := Step(events[k]);
        accepted := accepted + more;
      }
    }

    method Step(event: Event) returns (accepted: seq<Chunk>)
      requires Valid() && state != Error
      modifies this, list
      ensures Valid() && state != Error
      ensures appended == old(appended) + accepted && old(transferred) <= transferred
    {
      hide Linked;
      accepted := [];
      match event {
        case Appends(chunk, env, masked) =>
          if queued < capacity {
            Append(chunk, env, masked);
            accepted := [chunk];
          }
        case Enables =>
          if state == Ready {
            var _ := Enable(true);
          }
        case Completes =>
          if engine.Running? && !pending {
            CompleteChunk();
          }
        case Interrupts =>
          if pending {
            var _ := Interrupt();
          }
      }
    }

    /**
     * Without further appends every schedule of completions and interrupts transfers
     * all appended chunks and reaches Done, in at most two steps per chunk.
     */
    method Drain() returns (steps: nat)
      requires Valid() && state == Busy
      modifies this
      ensures Valid() && state == Done
      ensures transferred == appended == old(appended)
      ensures steps <= 2 * old(queued)
    {
      hide Linked;
      steps := 0;
      while state == Busy
        invariant Valid() && (state == Busy || state == Done)
        invariant appended == old(appended)
        invariant steps + 2 * queued - Finished() <= 2 * old(queued)
        decreases 2 * queued - Finished()
      {
        if !pending {
          CompleteChunk();
        } else {
          var _ := Interrupt();
        }
        steps := steps + 1;
      }
    }
  }

  /**
   * Why appends mask the interrupt: when the engine stops and the handler runs between
   * the index update and the counter update of an append, the handler finds no queued
   * chunk and reports completion. The append then marks the channel ready with its chunk
   * in slot 1, while enabling it starts from slot 0: the engine loads the old chunk again.
   */
  method RepeatedChunk(done: Chunk, later: Chunk) returns (channel: Channel)
    ensures channel.state == Busy && channel.queued == 1
    ensures channel.engine.Running? && channel.engine.chunk == done && channel.engine.link == Some(1)
    ensures channel.transferred == [done]
    ensures channel.list.Length == 2
    ensures channel.list[0].Content() == done && channel.list[1].Content() == later
  {
    hide Linked;
    channel := EndBetweenUpdates(done);

    var slot, previous := 1, 0;
    channel.Fill(slot, later, (_: nat) => 0, true);
    channel.list[previous] := channel.list[previous].(next := Some(slot));
    channel.queued := channel.queued + 1;
    channel.state := Ready;

    // `channelEnable`
    channel.state := Busy;
    channel.engine := Running(channel.list[0].Content(), channel.list[0].next);
  }

  /** The append has moved the index from slot 1 to slot 0 when the end of the list is reported. */
  method EndBetweenUpdates(done: Chunk) returns (channel: Channel)
    ensures fresh(channel) && fresh(channel.list) && channel.Core() && channel.capacity == 2
    ensures channel.state == Done && channel.queued == 0 && |channel.appended| == channel.handled
    ensures channel.index == 0 && channel.Tail() == 1
    ensures channel.transferred == [done] && channel.list[0].Content() == done
  {
    hide Linked;
    channel := StartOne(done);
    channel.index := 0;
    channel.CompleteChunk();
    var _ := channel.InterruptHandler(E_OK);
  }

  /** A channel with two slots that transfers its only chunk. */
  method StartOne(chunk: Chunk) returns (channel: Channel)
    ensures fresh(channel) && fresh(channel.list) && channel.Valid() && channel.capacity == 2
    ensures channel.state == Busy && channel.queued == 1
    ensures channel.appended == [chunk] && channel.transferred == []
    ensures channel.engine.Running? && channel.engine.link == None && !channel.pending
    ensures channel.list[0].Content() == chunk && channel.first == 0
  {
    hide Linked;
    channel := new Channel(2);
    channel.Append(chunk, (_: nat) => 0, true);
    channel.OldestIsFirst();
    var _ := channel.Enable(true);
  }
}
