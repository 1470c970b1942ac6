/**
 * Streams of platform/lpc/i2s_dma.c on top of the descriptor ring. A stream request is
 * split into two descriptors and completed when both have been transferred. The receive
 * and transmit sides differ only in the register used and are modelled once.
 */
module I2sStream {
  import opened Common
  import opened DmaRing

  datatype Request = Request(buffer: nat, length: nat)

  datatype Completion = Completed(request: Request) | Cancelled(request: Request)

  /** Lengths of the two halves: the first is rounded down to whole samples. */
  function Parts(length: nat, sample: nat): (nat, nat)
    requires 0 < sample
  {
    var half := length / 2 - length / 2 % sample;
    (half, length - half)
  }

  /** Both halves are nonempty whole numbers of samples that cover the buffer. */
  lemma PartsAreWholeSamples(length: nat, sample: nat)
    requires 0 < sample && length % sample == 0 && 2 <= length / sample
    ensures var (a, b) := Parts(length, sample);
            0 < a && 0 < b && a + b == length && a % sample == 0 && b % sample == 0
  {
    var n := length / sample;
    var half := length / 2 / sample;
    assert length == n * sample;
    assert 2 * sample <= length by { assert 2 * sample <= n * sample; }
    assert sample <= length / 2;
    assert 0 < half && Parts(length, sample).0 == half * sample;
    Multiples(n, half, sample);
  }

  lemma Multiples(n: nat, m: nat, k: nat)
    requires 0 < k && m <= n
    ensures m * k % k == 0 && (n * k - m * k) % k == 0
    ensures 0 < m ==> 0 < m * k
  {
    DivModUnique(m * k, k, m, 0);
    assert n * k - m * k == (n - m) * k;
    DivModUnique(n * k - m * k, k, n - m, 0);
  }

  function FirstHalf(request: Request, sample: nat): Chunk
    requires 0 < sample
  {
    Chunk(0, request.buffer, Parts(request.length, sample).0)
  }

  function SecondHalf(request: Request, sample: nat): Chunk
    requires 0 < sample
  {
    var (a, b) := Parts(request.length, sample);
    Chunk(0, request.buffer + a, b)
  }

  /** Two descriptors for each request, in order; source 0 stands for the data register. */
  ghost predicate Halved(chunks: seq<Chunk>, requests: seq<Request>, sample: nat) {
    && 0 < sample
    && |chunks| == 2 * |requests|
    && forall i | 0 <= i < |requests| ::
         && chunks[2 * i] == FirstHalf(requests[i], sample)
         && chunks[2 * i + 1] == SecondHalf(requests[i], sample)
  }

  lemma HalvedExtends(chunks: seq<Chunk>, requests: seq<Request>, sample: nat, request: Request)
    requires Halved(chunks, requests, sample)
    ensures Halved(chunks + [FirstHalf(request, sample)] + [SecondHalf(request, sample)],
                   requests + [request], sample)
  {
  }

  lemma NothingHalved(sample: nat)
    requires 0 < sample
    ensures Halved([], [], sample)
  {
  }

  /** Each request consists of two buffers. */
  predicate WholeRequests(queued: nat) {
    queued % 2 == 0
  }

  function Taken(finished: Option<Request>): seq<Request> {
    if finished.Some? then [finished.value] else []
  }

  class Stream {
    const dma: Channel
    const size: nat
    const sample: nat
    var requests: seq<Request>

    // Requests in order of acceptance and requests whose callback reported completion, since
    // the ring was last emptied by a refused start or a clear
    ghost var enqueued: seq<Request>
    ghost var completed: seq<Request>

    ghost predicate Valid()
      reads this, dma, dma.list
    {
      Consistent() && (dma.state != Error ==> dma.handled <= 2 * |completed| + 1)
    }

    /** Between a channel interrupt and its callback one more half may be handled. */
    ghost predicate Consistent()
      reads this, dma, dma.list
    {
      && 0 < size && 0 < sample && dma.capacity == 2 * size
      && |requests| <= size
      && dma.Valid()
      && dma.state != Ready
      && enqueued == completed + requests
      && if dma.state == Error then requests == [] && dma.queued == 2 else
           && |dma.appended| == 2 * |enqueued|
           && Halved(dma.appended, enqueued, sample)
           && 2 * |completed| <= dma.handled <= 2 * |completed| + 2
    }

    /** The request queue is never out of step with the descriptor ring. */
    lemma QueueMatchesRing()
      requires Valid()
      ensures dma.state != Error ==> |requests| == (dma.queued + 1) / 2
      ensures dma.state != Error ==> 2 * |completed| <= |dma.transferred|
      ensures dma.state == Busy <==> requests != []
      ensures dma.state != Error && requests == [] ==> dma.transferred == dma.appended
    {
    }

    /**
     * Whenever the queue is not full the ring has room for both halves, as its appends
     * assert, except after a refused start of a stream with room for one request: the
     * ring is then still full of the halves that were not started.
     */
    lemma RoomForBothHalves()
      requires Valid() && |requests| < size
      ensures dma.state != Error ==> dma.queued + 2 <= dma.capacity
      ensures dma.queued < dma.capacity <==> dma.state != Error || size != 1
    {
    }

    constructor (size: nat, sample: nat)
      requires 0 < size && 0 < sample
      ensures Valid() && fresh(dma) && fresh(dma.list) && dma.state == Idle
      ensures this.size == size && this.sample == sample
      ensures requests == [] && enqueued == [] && completed == []
    {
      this.size, this.sample := size, sample;
      dma := new Channel(2 * size);
      requests, enqueued, completed := [], [], [];
    }

    /**
     * `i2sRxStreamEnqueue` and `i2sTxStreamEnqueue`, run with interrupts masked; `available`
     * says whether the controller lets the channel start.
     */
    method Enqueue(request: Request, env: nat -> nat, available: bool) returns (res: Result)
      requires Valid() && (dma.state == Error ==> size != 1)
      requires request.length % sample == 0 && 2 <= request.length / sample
      modifies this, dma, dma.list
      ensures Valid() && (old(dma.state) != Error || res == E_FULL ==> completed == old(completed))
      ensures res == if size <= |old(requests)| then E_FULL
                     else if old(dma.state) != Busy && !available then E_INTERFACE
                     else E_OK
      ensures requests == old(requests) + (if res == E_OK then [request] else [])
      ensures res == E_FULL ==> dma.appended == old(dma.appended)
      ensures res == E_INTERFACE <==> dma.state == Error && old(dma.state != Error || |requests| < size)
      ensures res == E_OK ==> dma.state == Busy
    {
      QueueMatchesRing();
      if |requests| < size {
        RoomForBothHalves();
        hide Channel.Core, Channel.Valid, Halved, Parts;
        if dma.state == Error {
          enqueued, completed := [], [];
          HalvedExtends([], [], sample, request) by {
            NothingHalved(sample);
          }
        } else {
          HalvedExtends(dma.appended, enqueued, sample, request);
        }
        res := AppendHalves(request, env, available);
        if res == E_OK {
          requests, enqueued := requests + [request], enqueued + [request];
        }
      } else {
        res := E_FULL;
      }
    }

    /** Extends the running list, or starts a new one. */
    method AppendHalves(request: Request, env: nat -> nat, available: bool) returns (res: Result)
      requires dma.Valid() && dma.state != Ready && 0 < sample && 2 <= dma.capacity
      requires if dma.state == Error then dma.queued < dma.capacity else dma.queued + 2 <= dma.capacity
      modifies dma, dma.list
      ensures dma.Valid() && dma.state == (if res == E_OK then Busy else Error)
      ensures res == if old(dma.state) != Busy && !available then E_INTERFACE else E_OK
      ensures res != E_OK ==> dma.queued == 2
      ensures dma.appended ==
              (if old(dma.state) == Error then [] else old(dma.appended))
              + [FirstHalf(request, sample)] + [SecondHalf(request, sample)]
      ensures dma.handled == if old(dma.state) == Error then 0 else old(dma.handled)
    {
      hide Channel.Core, Channel.Valid, FirstHalf, SecondHalf;
      if dma.state == Idle || dma.state == Done {
        dma.NothingQueued();
      }
      dma.Append(FirstHalf(request, sample), env, true);
      dma.Append(SecondHalf(request, sample), env, true);
      res := E_OK;
      if dma.state != Busy {
        var started := dma.Enable(available);
        if started != E_OK {
          res := E_INTERFACE;
        }
      }
    }

    /** The channel interrupt followed by the channel callback. */
    method DmaInterrupt() returns (finished: Option<Request>)
      requires Valid() && dma.pending
      modifies this, dma
      ensures Valid() && enqueued == old(enqueued) && !dma.pending
      ensures dma.transferred == old(dma.transferred) && dma.queued == old(dma.queued) - 1
      ensures completed == old(completed) + Taken(finished)
      ensures old(requests) == Taken(finished) + requests
    {
      QueueMatchesRing();
      hide Channel.Core, Channel.Valid, Halved;
      var event := dma.Interrupt();
      finished := None;
      if event {
        finished := DmaHandler();
      }
    }

    lemma QueuedHalves()
      requires Consistent() && dma.state != Error
      requires 2 * |completed| < dma.handled
      ensures requests != []
      ensures dma.state != Busy || WholeRequests(dma.queued) <==> dma.handled == 2 * |completed| + 2
    {
      assert dma.state != Busy ==> dma.queued == 0;
      assert dma.handled + dma.queued == 2 * |completed| + 2 * |requests|;
      hide *;
      if dma.handled == 2 * |completed| + 1 {
        assert dma.queued == 2 * (|requests| - 1) + 1;
      } else {
        assert dma.queued == 2 * (|requests| - 1);
      }
    }

    /** `rxDmaHandler` and `txDmaHandler`. */
    method DmaHandler() returns (finished: Option<Request>)
      requires Consistent() && dma.state != Error && 1 <= dma.handled && !dma.pending
      requires 2 * |completed| < dma.handled
      modifies this`requests, this`completed
      ensures Valid()
      ensures finished.Some? <==> dma.state != Busy || WholeRequests(dma.queued)
      ensures completed == old(completed) + Taken(finished)
      ensures old(requests) == Taken(finished) + requests
    {
      QueuedHalves();
      hide Channel.Valid, Channel.Core, Linked, Halved, WholeRequests;
      var event := dma.state != Busy || WholeRequests(dma.queued);
      finished := None;
      if event {
        FrontMoves(completed, requests);
        finished := Some(requests[0]);
        requests, completed := requests[1..], completed + [requests[0]];
      }
    }

    static lemma FrontMoves(completed: seq<Request>, requests: seq<Request>)
      requires requests != []
      ensures completed + [requests[0]] + requests[1..] == completed + requests
      ensures requests == [requests[0]] + requests[1..]
    {
    }

    /**
     * Without further requests every schedule of completions and interrupts reports all
     * accepted requests, each once and in order of acceptance.
     */
    method Drain()
      requires Valid()
      modifies this, dma
      ensures Valid() && requests == [] && completed == enqueued == old(enqueued)
      ensures dma.state != Error ==> dma.transferred == dma.appended
    {
      hide Linked, Halved;
      while requests != []
        invariant Valid() && enqueued == old(enqueued)
        decreases 2 * dma.queued - dma.Finished()
      {
        QueueMatchesRing();
        if !dma.pending {
          dma.CompleteChunk();
        } else {
          var _ := DmaInterrupt();
        }
      }
      QueueMatchesRing();
    }

    /**
     * `i2sRxStreamClear` and `i2sTxStreamClear`: an active channel is disabled and
     * cleared, then every remaining request is cancelled in order of acceptance.
     */
    method Clear() returns (log: seq<Completion>)
      requires Valid() && !dma.pending
      modifies this, dma
      ensures Valid() && requests == []
      ensures |log| == |old(requests)|
      ensures forall i | 0 <= i < |log| :: log[i] == Cancelled(old(requests)[i])
    {
      QueueMatchesRing();
      if dma.state == Busy {
        dma.Disable();
        dma.Clear();
        enqueued, completed := requests, [];
      }
      log := CancelAll();
      if old(requests) != [] {
        enqueued := [];
      }
    }

    method CancelAll() returns (log: seq<Completion>)
      modifies this`requests
      ensures requests == [] && |log| == |old(requests)|
      ensures forall i | 0 <= i < |log| :: log[i] == Cancelled(old(requests)[i])
    {
      log := [];
      while requests != []
        invariant |log| <= |old(requests)| && requests == old(requests)[|log|..]
        invariant forall i | 0 <= i < |log| :: log[i] == Cancelled(old(requests)[i])
      {
        log := log + [Cancelled(requests[0])];
        requests := requests[1..];
      }
    }
  }

  /**
   * The refused start of a stream for one request: its queue is empty, but its ring is full,
   * so the first append of the next request fails the assertion on the capacity.
   */
  method RefusedStart(sample: nat, request: Request) returns (stream: Stream)
    requires 0 < sample && request.length % sample == 0 && 2 <= request.length / sample
    ensures stream.Valid() && stream.requests == [] && |stream.requests| < stream.size
    ensures stream.dma.state == Error && stream.dma.queued == stream.dma.capacity
  {
    hide Halved, Parts;
    stream := new Stream(1, sample);
    var res := stream.Enqueue(request, (_: nat) => 0, false);
    stream.RoomForBothHalves();
  }
}
