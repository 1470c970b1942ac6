/**
 * SDIO commands over an SPI bus, generic/sdio_spi.c: a table of states that every bus,
 * timer or work queue event advances by one.
 *
 * The card is the environment: it answers every read with any bytes. Register access and
 * the bus itself are reduced to the request that waits for its completion.
 */
module SdioSpi {
  import opened Common

  type byte = x: int | 0 <= x < 256

  datatype State =
    | Idle | Init | SendCmd | WaitResp | ReadShort
    | WaitLong | ReadLong | WaitRead | ReadData | ReadCrc
    | ReadDelay | WriteToken | WriteData | WriteCrc
    | WaitWrite | WriteDelay | WriteBusy | WriteStop
    | ComputeCrc | VerifyCrc

  datatype Status =
    | StatusOk | StatusBusy | StatusIdle | StatusError | StatusErrorCrc | StatusErrorTimeout

  datatype Response = NoResponse | ShortResponse | LongResponse

  datatype Command = Command(
    code: nat, response: Response, initialize: bool, checkCrc: bool, dataMode: bool, writeMode: bool,
    stopTransfer: bool, autoStop: bool)

  const TOKEN_RETRIES: nat := 8
  const BUSY_READ_RETRIES: nat := 1000
  const BUSY_WRITE_RETRIES: nat := 5000

  const TOKEN_DATA_ACCEPTED: byte := 0x05
  const TOKEN_START: byte := 0xFE
  const TOKEN_START_MULTIPLE: byte := 0xFC
  const TOKEN_STOP: byte := 0xFD

  /** CMD12 without response, as injected after the last block. */
  const STOP_TRANSMISSION := Command(12, NoResponse, false, false, false, false, false, false)

  function ParseDataToken(token: byte, expected: byte, retries: nat): Result {
    if token == 0xFF then (if retries != 0 then E_BUSY else E_TIMEOUT)
    else if token != expected then E_DEVICE
    else E_OK
  }

  function ParseResponseToken(token: byte, retries: nat): Result {
    if token == 0xFF then (if retries != 0 then E_BUSY else E_TIMEOUT)
    else if 0x80 <= token then E_DEVICE
    else if (token / 0x04) % 2 == 1 then E_INVALID
    else if token % 2 == 1 then E_IDLE
    else if token != 0 then E_ERROR
    else E_OK
  }

  lemma ResponseIsFinal(token: byte, retries: nat)
    ensures token == 0xFF <==> ParseResponseToken(token, retries) in {E_BUSY, E_TIMEOUT}
    ensures token == 0xFF ==> (ParseResponseToken(token, retries) == E_BUSY <==> retries != 0)
    ensures token != 0xFF ==> ParseResponseToken(token, retries) == ParseResponseToken(token, 0)
  {
  }

  function ResultToStatus(res: Result): Status {
    match res
    case E_OK => StatusOk
    case E_BUSY => StatusBusy
    case E_IDLE => StatusIdle
    case E_TIMEOUT => StatusErrorTimeout
    case _ => StatusError
  }

  /**
   * The response to a written block is masked before it is compared with the idle pattern,
   * so the state that waits for it never reports a busy card, whatever the card sends.
   */
  lemma WriteResponseIsNeverBusy(token: byte, retries: nat)
    ensures ParseDataToken(token % 0x20, TOKEN_DATA_ACCEPTED, retries)
         == if token % 0x20 == TOKEN_DATA_ACCEPTED then E_OK else E_DEVICE
  {
  }

  /** What the data phase of a write puts on the bus. */
  datatype Frame = Token(value: byte) | Data(content: seq<byte>) | Checksum(crc: nat)

  function Block(content: seq<byte>, block: nat, i: nat): seq<byte>
    requires i * block + block <= |content|
  {
    content[i * block..i * block + block]
  }

  /** The checksum that accompanies a block, all ones without checksum verification. */
  function Sum(content: seq<byte>, block: nat, i: nat, crc: seq<byte> -> nat, checked: bool): nat
    requires i * block + block <= |content|
  {
    if checked then crc(Block(content, block, i)) else 0xFFFF
  }

  /** The first `count` blocks, each behind its start token and in front of its checksum. */
  ghost function Frames(content: seq<byte>, block: nat, count: nat, crc: seq<byte> -> nat, checked: bool, multiple: bool): seq<Frame>
    requires count * block <= |content|
  {
    if count == 0 then [] else
      assert (count - 1) * block + block == count * block;
      Frames(content, block, count - 1, crc, checked, multiple)
      + [Token(if multiple then TOKEN_START_MULTIPLE else TOKEN_START),
         Data(Block(content, block, count - 1)), Checksum(Sum(content, block, count - 1, crc, checked))]
  }

  /** Every block of the content has its checksum; all `|checks|` blocks lie inside the content. */
  ghost predicate Intact(content: seq<byte>, block: nat, checks: seq<nat>, crc: seq<byte> -> nat) {
    forall i | 0 <= i < |checks| && i * block + block <= |content| ::
      crc(Block(content, block, i)) == checks[i]
  }

  /** What a write request puts on the bus: idle clocks, a command, or a part of the data phase. */
  datatype Packet = Clocks | Start(command: Command) | Part(frame: Frame)

  datatype Request = Nothing | Read(at: nat, count: nat) | ReadBlock(offset: int) | Write(packet: Packet) | Delay | Work

  function FramesOf(request: Request): seq<Frame> {
    if request.Write? && request.packet.Part? then [request.packet.frame] else []
  }

  function CommandsOf(request: Request): seq<Command> {
    if request.Write? && request.packet.Start? then [request.packet.command] else []
  }

  /** The bytes of data in the answer to a request. */
  function BytesOf(request: Request, input: seq<byte>): seq<byte> {
    if request.ReadBlock? then input else []
  }

  /** The checksum in the answer to a request. */
  function ChecksumOf(request: Request, input: seq<byte>): seq<nat> {
    if request == Read(0, 2) && |input| == 2 then [BigEndian16(input[0], input[1])] else []
  }

  /** One event on the bus: the request that has ended, the answer, and the request that follows. */
  datatype Exchange = Exchange(asked: Request, input: seq<byte>, next: Request)

  function BytesIn(log: seq<Exchange>): seq<byte> {
    if log == [] then [] else
      var last := log[|log| - 1];
      BytesIn(log[..|log| - 1]) + BytesOf(last.asked, last.input)
  }

  function ChecksumsIn(log: seq<Exchange>): seq<nat> {
    if log == [] then [] else
      var last := log[|log| - 1];
      ChecksumsIn(log[..|log| - 1]) + ChecksumOf(last.asked, last.input)
  }

  function FramesIn(log: seq<Exchange>): seq<Frame> {
    if log == [] then [] else FramesIn(log[..|log| - 1]) + FramesOf(log[|log| - 1].next)
  }

  function CommandsIn(log: seq<Exchange>): seq<Command> {
    if log == [] then [] else CommandsIn(log[..|log| - 1]) + CommandsOf(log[|log| - 1].next)
  }

  /** Number of bytes that a request gets from the card. */
  function Requested(request: Request, block: nat): nat {
    match request
    case Read(_, count) => count
    case ReadBlock(_) => block
    case _ => 0
  }

  /** The events follow each other, and every answer has the length that was asked for. */
  ghost predicate Connected(log: seq<Exchange>, first: Request, last: Request, block: nat) {
    && (if log == [] then first == last else log[0].asked == first && log[|log| - 1].next == last)
    && (forall i | 0 < i < |log| :: log[i].asked == log[i - 1].next)
    && (forall i | 0 <= i < |log| :: |log[i].input| == Requested(log[i].asked, block))
  }

  lemma ConnectedExtends(log: seq<Exchange>, first: Request, last: Request, block: nat, input: seq<byte>, next: Request)
    requires Connected(log, first, last, block) && |input| == Requested(last, block)
    ensures Connected(log + [Exchange(last, input, next)], first, next, block)
  {
  }

  /** Data of the transfer in progress; `open` tells that its address is not zero. */
  datatype Transfer = Transfer(data: seq<byte>, open: bool, length: nat, left: nat, status: Status)

  /**
   * History of the transfer: the caller's command, its blocks and those left, blocks, bytes
   * and checksums from the card, bytes to write, and what was sent.
   */
  datatype Trace = Trace(
    original: Command, total: nat, blocks: nat, arrived: nat, received: seq<byte>, checks: seq<nat>,
    content: seq<byte>, wire: seq<Frame>, commands: seq<Command>)

  lemma BlockFits(i: nat, count: nat, block: nat)
    requires i < count
    ensures i * block + block <= count * block && (i + 1) * block == i * block + block
  {
    MulMonotone(i + 1, count, block);
  }

  /** Where a token leads: on, to another try, or to the end with its status. */
  function Turn(res: Result, ready: State, again: State): State {
    if res == E_OK then ready else if res == E_BUSY then again else Idle
  }

  /** Where an accepted command leads. */
  function Continuation(code: Command): State {
    if code.dataMode then (if code.writeMode then WriteToken else WaitRead) else
      match code.response
      case ShortResponse => ReadShort
      case LongResponse => WaitLong
      case NoResponse => Idle
  }

  /** Where a card that is ready again leads: the next block, the stop token, or the end. */
  function AfterBlock(blocks: nat, open: bool, total: nat): State {
    if blocks != 0 then WriteToken else if open && 1 < total then WriteStop else Idle
  }

  // Invariant of the state machine

  predicate Reads(command: Command) {
    command.dataMode && !command.writeMode
  }

  predicate Writes(command: Command) {
    command.dataMode && command.writeMode
  }

  /** The command in progress is the one of the caller or the stop command injected after it. */
  ghost predicate Issued(code: Command, trace: Trace) {
    && (trace.original.dataMode <==> 0 < trace.total) && trace.blocks <= trace.total
    && (code == trace.original ||
        (code == STOP_TRANSMISSION && trace.original.autoStop && Reads(trace.original) && trace.blocks == 0))
  }

  ghost predicate Sized(block: nat, transfer: Transfer, pool: seq<nat>, trace: Trace) {
    && 0 < block && transfer.length == trace.total * block && transfer.left == trace.blocks * block
    && transfer.length <= |transfer.data| && trace.blocks <= trace.total
    && (trace.original.checkCrc && trace.original.dataMode ==> trace.total <= |pool|)
  }

  lemma Quotients(block: nat, blocks: nat, total: nat)
    requires 0 < block && blocks <= total
    ensures total * block - blocks * block == (total - blocks) * block && blocks * block <= total * block
    ensures (total * block) / block == total
    ensures (total * block - blocks * block) / block == total - blocks
  {
    assert (total - blocks) * block == total * block - blocks * block;
    DivModUnique((total - blocks) * block, block, total - blocks, 0);
    DivModUnique(total * block, block, total, 0);
    MulMonotone(blocks, total, block);
  }

  lemma Products(block: nat, blocks: nat)
    requires 0 < block
    ensures blocks * block == 0 <==> blocks == 0
    ensures block < blocks * block <==> 1 < blocks
    ensures 0 < blocks ==> block <= blocks * block && (blocks - 1) * block == blocks * block - block
  {
    if 1 < blocks {
      MulMonotone(2, blocks, block);
    }
  }

  lemma SizedBlocks(block: nat, transfer: Transfer, pool: seq<nat>, trace: Trace)
    requires Sized(block, transfer, pool, trace)
    ensures 0 < block && (transfer.left == 0 <==> trace.blocks == 0)
    ensures transfer.length == trace.total * block <= |transfer.data|
    ensures block < transfer.length <==> 1 < trace.total
    ensures transfer.left <= transfer.length && transfer.length - transfer.left == (trace.total - trace.blocks) * block
    ensures transfer.length / block == trace.total
    ensures (transfer.length - transfer.left) / block == trace.total - trace.blocks
    ensures 0 < trace.blocks ==>
              block <= transfer.left &&
              Sized(block, transfer.(left := transfer.left - block), pool, trace.(blocks := trace.blocks - 1))
  {
    Quotients(block, trace.blocks, trace.total);
    Products(block, trace.blocks);
    Products(block, trace.total);
  }

  /** Blocks left and retries left in every state; `open` while the stop token is not sent. */
  ghost predicate Phase(state: State, retries: nat, blocks: nat, total: nat, code: Command, open: bool) {
    match state
    case Idle => true
    case Init => Unstarted(blocks, total, code, open)
    case SendCmd => Unstarted(blocks, total, code, open) && retries == TOKEN_RETRIES
    case WaitResp => Unstarted(blocks, total, code, open) && retries < TOKEN_RETRIES
    case ReadShort => total == 0 && blocks == 0 && !open && !code.dataMode
    case WaitLong => total == 0 && !code.dataMode && retries < TOKEN_RETRIES
    case ReadLong => total == 0 && !code.dataMode
    case WaitRead => Reads(code) && 0 < blocks <= total && retries < BUSY_READ_RETRIES
    case ReadDelay => Reads(code) && 0 < blocks <= total && 0 < retries < BUSY_READ_RETRIES
    case ReadData => Reads(code) && blocks < total
    case ReadCrc => Reads(code) && blocks < total
    case VerifyCrc => Reads(code) && code.checkCrc && blocks == 0 < total
    case ComputeCrc => Writes(code) && code.checkCrc && blocks == total && open
    case WriteToken => Writes(code) && 0 < blocks <= total && open && retries == TOKEN_RETRIES
    case WriteData => Writes(code) && blocks < total && open && retries == TOKEN_RETRIES
    case WriteCrc => Writes(code) && blocks < total && open && retries == TOKEN_RETRIES
    case WaitWrite => Writes(code) && blocks < total && open && retries < TOKEN_RETRIES
    case WriteBusy => Programming(blocks, total, code, open) && retries < BUSY_WRITE_RETRIES
    case WriteDelay => Programming(blocks, total, code, open) && 0 < retries < BUSY_WRITE_RETRIES
    case WriteStop => Writes(code) && blocks == 0 && 1 < total && !open && retries == BUSY_WRITE_RETRIES
  }

  ghost predicate Unstarted(blocks: nat, total: nat, code: Command, open: bool) {
    if code.dataMode then blocks == total && 0 < total && open else blocks == 0 && (total == 0 ==> !open)
  }

  ghost predicate Programming(blocks: nat, total: nat, code: Command, open: bool) {
    if code.dataMode then code.writeMode && blocks < total && (open || (blocks == 0 && 1 < total))
    else total == 0 && blocks == 0 && !open
  }

  /** Upper bound of the number of events until the interface is idle. */
  ghost function Remaining(state: State, retries: nat, blocks: nat, code: Command, open: bool): nat {
    20000 * blocks + (if code.autoStop then 20000 else 0) + (if open then 11000 else 0)
    + match state
      case Idle => 0
      case Init => 14000
      case ComputeCrc => 14000
      case SendCmd => 13000
      case WaitResp => 12000 + 2 * retries
      case ReadShort => 11000
      case WaitLong => 10 + 2 * retries
      case ReadLong => 1
      case WaitRead => 2 + 2 * retries
      case ReadDelay => 1 + 2 * retries
      case ReadData => 3002
      case ReadCrc => 3001
      case VerifyCrc => 3000
      case WriteToken => 1
      case WriteData => 10200
      case WriteCrc => 10199
      case WaitWrite => 10100 + 2 * retries
      case WriteStop => 10020
      case WriteBusy => 3 + 2 * retries
      case WriteDelay => 2 + 2 * retries
  }

  /** States that read one token and count a retry. */
  predicate Retries(state: State) {
    match state
    case WaitResp => true
    case WaitLong => true
    case WaitRead => true
    case WaitWrite => true
    case WriteBusy => true
    case _ => false
  }

  /** What holds between the choice of the next state and its entry. */
  ghost predicate Chosen(next: State, retries: nat, blocks: nat, total: nat, code: Command, open: bool) {
    match next
    case Idle => true
    case Init => false
    case ComputeCrc => false
    case SendCmd => Unstarted(blocks, total, code, open)
    case WaitResp => Unstarted(blocks, total, code, open) && 0 < retries <= TOKEN_RETRIES
    case WaitLong => total == 0 && !code.dataMode && 0 < retries <= TOKEN_RETRIES
    case WaitRead => Reads(code) && 0 < blocks <= total && 0 < retries <= BUSY_READ_RETRIES
    case ReadData => Reads(code) && 0 < blocks <= total
    case WriteToken => Writes(code) && 0 < blocks <= total && open
    case WriteData => Writes(code) && 0 < blocks <= total && open && retries == TOKEN_RETRIES
    case WaitWrite => Writes(code) && blocks < total && open && 0 < retries <= TOKEN_RETRIES
    case WriteBusy => Programming(blocks, total, code, open) && 0 < retries <= BUSY_WRITE_RETRIES
    case _ => Phase(next, retries, blocks, total, code, open)
  }

  function RetriesAfter(next: State, retries: nat): nat {
    if Retries(next) && 0 < retries then retries - 1
    else if next == SendCmd || next == WriteToken then TOKEN_RETRIES
    else retries
  }

  function BlocksAfter(next: State, blocks: nat): nat {
    if (next == ReadData || next == WriteData) && 0 < blocks then blocks - 1 else blocks
  }

  /** The entry of the chosen state establishes its invariant; counters never go below zero. */
  lemma EntryKeepsPhase(next: State, retries: nat, blocks: nat, total: nat, code: Command, open: bool)
    requires Chosen(next, retries, blocks, total, code, open)
    ensures Phase(next, RetriesAfter(next, retries), BlocksAfter(next, blocks), total, code, open)
    ensures Retries(next) ==> 0 < retries
    ensures next == ReadData || next == WriteData ==> 0 < blocks <= total
    ensures next == WriteCrc ==> blocks < total
    ensures next == WriteStop ==> !open
    ensures next == WriteToken || next == WriteData || next == WriteCrc ==> open && Writes(code)
    ensures next == ReadData ==> Reads(code)
  {
  }

  /** What an entered state waits for; a read goes behind the blocks before it. */
  function Awaited(state: State, offset: int, block: nat): Request {
    match state
    case Idle => Nothing
    case ReadShort => Read(1, 4)
    case ReadLong => Read(0, 18)
    case ReadCrc => Read(0, 2)
    case ReadData => ReadBlock(offset - block)
    case WaitResp => Read(0, 1)
    case WaitLong => Read(0, 1)
    case WaitRead => Read(0, 1)
    case WaitWrite => Read(0, 1)
    case WriteBusy => Read(0, 1)
    case ReadDelay => Delay
    case WriteDelay => Delay
    case ComputeCrc => Work
    case VerifyCrc => Work
    case _ => Write(Clocks)
  }

  /** The request is the awaited one; what is written is the matter of the history. */
  predicate Waits(request: Request, awaited: Request) {
    request == awaited || (request.Write? && awaited.Write?)
  }

  /** How far the frames of the last block that was begun are on the bus. */
  datatype Form = Uncomputed | Tokened | Filled | Whole | Stopped

  /**
   * How far the data has followed the block counter: blocks without their bytes, blocks
   * without their checksum, the frames, and whether the command in progress has been sent.
   */
  datatype Stage = Stage(missing: nat, unchecked: nat, form: Form, begun: bool)

  function StageOf(state: State, open: bool): Stage {
    var whole := if open then Whole else Stopped;
    match state
    case Init => Stage(0, 0, whole, false)
    case ComputeCrc => Stage(0, 0, Uncomputed, false)
    case ReadData => Stage(1, 1, whole, true)
    case ReadCrc => Stage(0, 1, whole, true)
    case WriteToken => Stage(0, 0, Tokened, true)
    case WriteData => Stage(0, 0, Filled, true)
    case _ => Stage(0, 0, whole, true)
  }

  /** The stage before the chosen state is entered. */
  function StageBefore(next: State, open: bool): Stage {
    var whole := if open then Whole else Stopped;
    match next
    case SendCmd => Stage(0, 0, whole, false)
    case ReadCrc => Stage(0, 1, whole, true)
    case WriteData => Stage(0, 0, Tokened, true)
    case WriteCrc => Stage(0, 0, Filled, true)
    case WriteStop => Stage(0, 0, Whole, true)
    case _ => Stage(0, 0, whole, true)
  }

  /**
   * Blocks of a read lie in the memory one after the other, the rest of the memory is as it
   * was, and the checksums are in the pool.
   */
  ghost predicate Stored(block: nat, transfer: Transfer, pool: seq<nat>, trace: Trace) {
    Reads(trace.original) ==>
      && |trace.received| == trace.arrived * block && |trace.received| <= |transfer.data|
      && transfer.data[..|trace.received|] == trace.received
      && |transfer.data| == |trace.content|
      && transfer.data[|trace.received|..] == trace.content[|trace.received|..]
      && (trace.original.checkCrc ==> |trace.checks| <= |pool| && pool[..|trace.checks|] == trace.checks)
  }

  /** The pool holds the checksums of the blocks to write. */
  ghost predicate Summed(pool: seq<nat>, content: seq<byte>, block: nat, total: nat, crc: seq<byte> -> nat) {
    && total <= |pool|
    && forall i | 0 <= i < total && i * block + block <= |content| :: pool[i] == crc(Block(content, block, i))
  }

  function StartToken(total: nat): byte {
    if 1 < total then TOKEN_START_MULTIPLE else TOKEN_START
  }

  /** The frames of a write that are on the bus. */
  ghost predicate Framed(form: Form, block: nat, transfer: Transfer, pool: seq<nat>, trace: Trace, crc: seq<byte> -> nat) {
    Writes(trace.original) ==>
      var done := trace.total - trace.blocks;
      && transfer.data == trace.content && 0 <= done && done * block <= |trace.content|
      && (form != Uncomputed && trace.original.checkCrc ==> Summed(pool, trace.content, block, trace.total, crc))
      && match form
         case Uncomputed => trace.wire == [] && done == 0
         case Tokened => trace.wire == Frames(trace.content, block, done, crc, trace.original.checkCrc, 1 < trace.total) + [Token(StartToken(trace.total))]
         case Filled =>
           && 0 < done && (done - 1) * block + block <= |trace.content|
           && trace.wire == Frames(trace.content, block, done - 1, crc, trace.original.checkCrc, 1 < trace.total)
                            + [Token(StartToken(trace.total)), Data(Block(trace.content, block, done - 1))]
         case Whole => trace.wire == Frames(trace.content, block, done, crc, trace.original.checkCrc, 1 < trace.total)
         case Stopped => trace.wire == Frames(trace.content, block, done, crc, trace.original.checkCrc, 1 < trace.total) + [Token(TOKEN_STOP)]
  }

  /** The data is as far as the stage tells, and the card got the commands in order. */
  ghost predicate Progress(
    stage: Stage, block: nat, code: Command, transfer: Transfer, pool: seq<nat>, trace: Trace, crc: seq<byte> -> nat)
  {
    && Issued(code, trace) && trace.arrived + stage.missing == trace.total - trace.blocks
    && trace.commands == (if code == trace.original then [] else [trace.original]) + (if stage.begun then [code] else [])
    && (Reads(trace.original) ==> |trace.checks| + stage.unchecked == trace.total - trace.blocks)
    && Stored(block, transfer, pool, trace)
    && Framed(stage.form, block, transfer, pool, trace, crc)
  }

  /** The result is fixed by checksums only, and only before an injected command. */
  ghost predicate Verdict(
    code: Command, original: Command, status: Status, block: nat, received: seq<byte>, checks: seq<nat>,
    crc: seq<byte> -> nat)
  {
    if code == original || !original.checkCrc then status == StatusBusy else
      status == (if Intact(received, block, checks, crc) then StatusOk else StatusErrorCrc)
  }

  /**
   * The result when the interface becomes idle. Checksums decide the result of a read that
   * got all its blocks, whatever an injected command answered; without them the injected
   * command does. A write succeeds only after its last frame.
   */
  ghost predicate Outcome(
    status: Status, open: bool, commandStatus: Status, block: nat, trace: Trace, crc: seq<byte> -> nat)
  {
    && status != StatusBusy
    && (Reads(trace.original) ==>
          if trace.blocks == 0 && |trace.checks| == trace.total then
            (if trace.original.checkCrc then
               status == (if Intact(trace.received, block, trace.checks, crc) then StatusOk else StatusErrorCrc)
             else
               status == (if trace.original.autoStop then commandStatus else StatusOk))
          else
            status == StatusError || status == StatusErrorTimeout)
    && (Writes(trace.original) ==>
          && (status == StatusOk || status == StatusError || status == StatusErrorTimeout)
          && (status == StatusOk ==> trace.blocks == 0 && (1 < trace.total <==> !open)))
  }

  /** A complete read with automatic stop does not end before the stop command. */
  ghost predicate StopIsSent(code: Command, trace: Trace) {
    Reads(trace.original) && trace.original.autoStop && trace.blocks == 0 && |trace.checks| == trace.total ==>
      code != trace.original
  }

  /** The last command provides the status unless the checksums have. */
  ghost predicate Concluded(
    code: Command, transfer: Transfer, commandStatus: Status, block: nat, trace: Trace, crc: seq<byte> -> nat)
  {
    StopIsSent(code, trace) &&
    Outcome(if transfer.status == StatusBusy then commandStatus else transfer.status, transfer.open,
            commandStatus, block, trace, crc)
  }

  /** The short response follows a token without errors. */
  ghost predicate Answered(state: State, buffer: seq<byte>) {
    && |buffer| == 18
    && (state == ReadShort ==> buffer[0] != 0xFF && ParseResponseToken(buffer[0], 0) in {E_OK, E_IDLE})
  }

  function BigEndian16(a: byte, b: byte): nat {
    a as nat * 0x100 + b
  }

  function BigEndian32(a: byte, b: byte, c: byte, d: byte): nat {
    ((a * 0x100 + b) * 0x100 + c) * 0x100 + d
  }

  /** Word `i` of the bytes in the order of their transmission. */
  function WordAt(buffer: seq<byte>, i: nat): nat
    requires 4 * i + 3 < |buffer|
  {
    BigEndian32(buffer[4 * i], buffer[4 * i + 1], buffer[4 * i + 2], buffer[4 * i + 3])
  }

  lemma ProgressCounts(
    stage: Stage, block: nat, code: Command, transfer: Transfer, pool: seq<nat>, trace: Trace, crc: seq<byte> -> nat)
    requires Progress(stage, block, code, transfer, pool, trace, crc)
    ensures Reads(trace.original) ==> |trace.checks| + stage.unchecked == trace.total - trace.blocks
    ensures trace.arrived + stage.missing == trace.total - trace.blocks && Issued(code, trace)
  {
  }

  lemma TransferCloses(
    block: nat, code: Command, transfer: Transfer, pool: seq<nat>, trace: Trace, crc: seq<byte> -> nat)
    requires Sized(block, transfer, pool, trace)
    requires Progress(Stage(0, 0, Whole, true), block, code, transfer, pool, trace, crc)
    ensures Sized(block, transfer.(open := false), pool, trace)
    ensures Progress(Stage(0, 0, Whole, true), block, code, transfer.(open := false), pool, trace, crc)
  {
  }

  lemma ChecksumKept(
    block: nat, code: Command, transfer: Transfer, pool: seq<nat>, trace: Trace, crc: seq<byte> -> nat,
    form: Form, checksum: nat, pool': seq<nat>)
    requires Sized(block, transfer, pool, trace) && Reads(trace.original)
    requires Progress(Stage(0, 1, form, true), block, code, transfer, pool, trace, crc)
    requires if trace.original.checkCrc then |trace.checks| < |pool| && pool' == pool[|trace.checks| := checksum]
             else pool' == pool
    ensures Sized(block, transfer, pool', trace.(checks := trace.checks + [checksum]))
    ensures Progress(Stage(0, 0, form, true), block, code, transfer, pool',
                     trace.(checks := trace.checks + [checksum]), crc)
  {
    if trace.original.checkCrc {
      assert pool'[..|trace.checks| + 1] == pool[..|trace.checks|] + [checksum];
    }
  }

  /** A stop command is injected after a complete read. */
  lemma StopInjected(
    block: nat, code: Command, transfer: Transfer, pool: seq<nat>, trace: Trace, crc: seq<byte> -> nat, form: Form)
    requires Progress(Stage(0, 0, form, true), block, code, transfer, pool, trace, crc)
    requires code == trace.original && code.autoStop && Reads(code) && trace.blocks == 0
    ensures STOP_TRANSMISSION != trace.original
    ensures Progress(Stage(0, 0, form, false), block, STOP_TRANSMISSION, transfer, pool, trace, crc)
  {
  }

  /** The same command on the same data. */
  ghost predicate SameTask(a: Trace, b: Trace) {
    a.original == b.original && a.total == b.total && a.content == b.content
  }

  /** Nothing has come from the card yet, and the first request is all that was sent. */
  ghost predicate Begun(trace: Trace, first: Request) {
    trace.received == [] && trace.checks == [] && trace.wire == FramesOf(first) && trace.commands == CommandsOf(first)
  }

  /** What one event adds to the history: an answer of the card, and what the next request sends. */
  ghost predicate Grows(a: Trace, b: Trace, bytes: seq<byte>, checks: seq<nat>, sent: Request) {
    && SameTask(a, b)
    && b.received == a.received + bytes && b.checks == a.checks + checks
    && b.wire == a.wire + FramesOf(sent) && b.commands == a.commands + CommandsOf(sent)
  }

  lemma GrowthsJoin(a: Trace, b: Trace, c: Trace, bytes: seq<byte>, checks: seq<nat>, sent: Request)
    requires Grows(a, b, bytes, checks, Nothing) && Grows(b, c, [], [], sent)
    ensures Grows(a, c, bytes, checks, sent)
  {
  }

  lemma GrowthsJoinFirst(a: Trace, b: Trace, c: Trace, bytes: seq<byte>, checks: seq<nat>, sent: Request)
    requires Grows(a, b, bytes, [], Nothing) && Grows(b, c, [], checks, sent)
    ensures Grows(a, c, bytes, checks, sent)
  {
  }

  /** The history has grown by the events of the log. */
  ghost predicate Follows(a: Trace, b: Trace, log: seq<Exchange>) {
    && SameTask(a, b)
    && b.received == a.received + BytesIn(log) && b.checks == a.checks + ChecksumsIn(log)
    && b.wire == a.wire + FramesIn(log) && b.commands == a.commands + CommandsIn(log)
  }

  lemma NothingYet(trace: Trace, request: Request, block: nat)
    ensures Connected([], request, request, block) && Follows(trace, trace, [])
  {
  }

  lemma FirstGrowth(original: Command, total: nat, content: seq<byte>, b: Trace, first: Request)
    requires Grows(FreshTrace(original, total, content), b, [], [], first)
    ensures Begun(b, first) && SameTask(FreshTrace(original, total, content), b)
  {
  }

  lemma NothingNew(trace: Trace)
    ensures Grows(trace, trace, [], [], Nothing)
  {
  }

  lemma NothingSent(trace: Trace, request: Request)
    requires !request.Write?
    ensures Grows(trace, trace, [], [], request)
  {
  }

  /** After a whole operation the history is the log. */
  lemma JustAnswered(begun: Trace, trace: Trace, first: Request, log: seq<Exchange>)
    requires Begun(begun, first) && Follows(begun, trace, log)
    ensures SameTask(begun, trace)
    ensures trace.received == BytesIn(log) && trace.checks == ChecksumsIn(log)
    ensures trace.wire == FramesOf(first) + FramesIn(log) && trace.commands == CommandsOf(first) + CommandsIn(log)
  {
  }

  lemma FollowsFurther(a: Trace, b: Trace, c: Trace, log: seq<Exchange>, event: Exchange)
    requires Follows(a, b, log)
    requires Grows(b, c, BytesOf(event.asked, event.input), ChecksumOf(event.asked, event.input), event.next)
    ensures Follows(a, c, log + [event])
  {
    LogGrows(log, event);
    hide BytesIn, ChecksumsIn, FramesIn, CommandsIn, BytesOf, ChecksumOf, FramesOf, CommandsOf;
    Joined(a.received, BytesIn(log), BytesOf(event.asked, event.input));
    Joined(a.checks, ChecksumsIn(log), ChecksumOf(event.asked, event.input));
    Joined(a.wire, FramesIn(log), FramesOf(event.next));
    Joined(a.commands, CommandsIn(log), CommandsOf(event.next));
  }

  lemma Joined<T>(a: seq<T>, b: seq<T>, c: seq<T>)
    ensures a + b + c == a + (b + c)
  {
  }

  lemma LogGrows(log: seq<Exchange>, event: Exchange)
    ensures BytesIn(log + [event]) == BytesIn(log) + BytesOf(event.asked, event.input)
    ensures ChecksumsIn(log + [event]) == ChecksumsIn(log) + ChecksumOf(event.asked, event.input)
    ensures FramesIn(log + [event]) == FramesIn(log) + FramesOf(event.next)
    ensures CommandsIn(log + [event]) == CommandsIn(log) + CommandsOf(event.next)
  {
    assert (log + [event])[..|log|] == log;
  }

  lemma StatusKept(
    stage: Stage, block: nat, code: Command, transfer: Transfer, pool: seq<nat>, trace: Trace, crc: seq<byte> -> nat,
    status: Status)
    requires Sized(block, transfer, pool, trace) && Progress(stage, block, code, transfer, pool, trace, crc)
    ensures Sized(block, transfer.(status := status), pool, trace)
    ensures Progress(stage, block, code, transfer.(status := status), pool, trace, crc)
  {
  }

  /** Block `i` of a read lies at offset `i * block` of the memory. */
  lemma BlockStored(memory: seq<byte>, received: seq<byte>, block: nat, i: nat)
    requires |received| <= |memory| && memory[..|received|] == received && i * block + block <= |received|
    ensures memory[i * block..i * block + block] == Block(received, block, i)
  {
    var at := i * block;
    assert forall j | at <= j < at + block :: memory[j] == memory[..|received|][j];
  }

  /** A checksum loop that stops at the first difference decides whether all blocks are intact. */
  lemma DiffersSomewhere(content: seq<byte>, block: nat, checks: seq<nat>, crc: seq<byte> -> nat, i: nat)
    requires i < |checks| && i * block + block <= |content| && crc(Block(content, block, i)) != checks[i]
    ensures !Intact(content, block, checks, crc)
  {
  }

  lemma SumsComputed(
    block: nat, code: Command, transfer: Transfer, pool: seq<nat>, trace: Trace, crc: seq<byte> -> nat, pool': seq<nat>)
    requires Sized(block, transfer, pool, trace) && |pool'| == |pool| && Writes(trace.original)
    requires Progress(Stage(0, 0, Uncomputed, false), block, code, transfer, pool, trace, crc)
    requires Summed(pool', trace.content, block, trace.total, crc)
    ensures Sized(block, transfer, pool', trace)
    ensures Progress(Stage(0, 0, Whole, false), block, code, transfer, pool', trace, crc)
  {
  }

  lemma FrameBegins(
    block: nat, code: Command, transfer: Transfer, pool: seq<nat>, trace: Trace, crc: seq<byte> -> nat)
    requires Sized(block, transfer, pool, trace) && transfer.open
    requires Progress(StageBefore(WriteToken, transfer.open), block, code, transfer, pool, trace, crc)
    ensures var trace' := trace.(wire := trace.wire + [Token(StartToken(trace.total))]);
            Sized(block, transfer, pool, trace')
            && Progress(StageOf(WriteToken, transfer.open), block, code, transfer, pool, trace', crc)
  {
  }

  /** Where the next block of a transfer lies. */
  lemma NextBlock(block: nat, transfer: Transfer, pool: seq<nat>, trace: Trace, arrived: nat, wire: seq<Frame>)
    requires Sized(block, transfer, pool, trace) && 0 < trace.blocks
    ensures trace.blocks <= trace.total && block <= transfer.left <= transfer.length
    ensures var done := trace.total - trace.blocks;
            && transfer.length - transfer.left == done * block
            && (done + 1) * block == done * block + block <= |transfer.data|
    ensures Sized(block, transfer.(left := transfer.left - block), pool,
                  trace.(blocks := trace.blocks - 1, arrived := arrived, wire := wire))
  {
    SizedBlocks(block, transfer, pool, trace);
    BlockFits(trace.total - trace.blocks, trace.total, block);
  }

  lemma FrameFilled(
    block: nat, code: Command, transfer: Transfer, pool: seq<nat>, trace: Trace, crc: seq<byte> -> nat)
    requires Sized(block, transfer, pool, trace) && Writes(code) && 0 < trace.blocks
    requires Progress(StageBefore(WriteData, transfer.open), block, code, transfer, pool, trace, crc)
    ensures block <= transfer.left <= transfer.length && transfer.length - transfer.left + block <= |transfer.data|
    ensures var at := transfer.length - transfer.left;
            var trace' := trace.(blocks := trace.blocks - 1, arrived := trace.arrived + 1,
                                 wire := trace.wire + [Data(transfer.data[at..at + block])]);
            Sized(block, transfer.(left := transfer.left - block), pool, trace')
            && Progress(StageOf(WriteData, transfer.open), block, code, transfer.(left := transfer.left - block), pool, trace', crc)
  {
    hide Frames, Summed, Sized;
    NextBlock(block, transfer, pool, trace, 0, []);
    var at := transfer.length - transfer.left;
    NextBlock(block, transfer, pool, trace, trace.arrived + 1, trace.wire + [Data(transfer.data[at..at + block])]);
  }

  lemma FrameEnds(
    block: nat, code: Command, transfer: Transfer, pool: seq<nat>, trace: Trace, crc: seq<byte> -> nat)
    requires Sized(block, transfer, pool, trace) && transfer.open && Writes(code) && trace.blocks < trace.total
    requires Progress(StageBefore(WriteCrc, transfer.open), block, code, transfer, pool, trace, crc)
    ensures var index := trace.total - trace.blocks - 1;
            && code == trace.original && (trace.original.checkCrc ==> index < |pool|)
            && var trace' := trace.(wire := trace.wire + [Checksum(if trace.original.checkCrc then pool[index] else 0xFFFF)]);
               Sized(block, transfer, pool, trace')
               && Progress(StageOf(WriteCrc, transfer.open), block, code, transfer, pool, trace', crc)
  {
    var done := trace.total - trace.blocks;
    BlockFits(done - 1, done, block);
    var checksum := if trace.original.checkCrc then pool[done - 1] else 0xFFFF;
    assert Sum(trace.content, block, done - 1, crc, trace.original.checkCrc) == checksum;
    assert Frames(trace.content, block, done, crc, trace.original.checkCrc, 1 < trace.total)
        == Frames(trace.content, block, done - 1, crc, trace.original.checkCrc, 1 < trace.total)
           + [Token(StartToken(trace.total)), Data(Block(trace.content, block, done - 1)), Checksum(checksum)];
  }

  lemma StopSent(
    block: nat, code: Command, transfer: Transfer, pool: seq<nat>, trace: Trace, crc: seq<byte> -> nat)
    requires Sized(block, transfer, pool, trace) && !transfer.open
    requires Progress(StageBefore(WriteStop, transfer.open), block, code, transfer, pool, trace, crc)
    ensures var trace' := trace.(wire := trace.wire + [Token(TOKEN_STOP)]);
            Sized(block, transfer, pool, trace')
            && Progress(StageOf(WriteStop, transfer.open), block, code, transfer, pool, trace', crc)
  {
  }

  lemma CommandSent(
    block: nat, code: Command, transfer: Transfer, pool: seq<nat>, trace: Trace, crc: seq<byte> -> nat)
    requires Sized(block, transfer, pool, trace)
    requires Progress(StageBefore(SendCmd, transfer.open), block, code, transfer, pool, trace, crc)
    ensures var trace' := trace.(commands := trace.commands + [code]);
            Sized(block, transfer, pool, trace')
            && Progress(StageOf(SendCmd, transfer.open), block, code, transfer, pool, trace', crc)
  {
  }

  lemma BlockRequested(
    block: nat, code: Command, transfer: Transfer, pool: seq<nat>, trace: Trace, crc: seq<byte> -> nat)
    requires Sized(block, transfer, pool, trace) && Reads(code) && 0 < trace.blocks
    requires Progress(StageBefore(ReadData, transfer.open), block, code, transfer, pool, trace, crc)
    ensures block <= transfer.left <= transfer.length
    ensures var transfer', trace' := transfer.(left := transfer.left - block), trace.(blocks := trace.blocks - 1);
            Sized(block, transfer', pool, trace')
            && Progress(StageOf(ReadData, transfer.open), block, code, transfer', pool, trace', crc)
  {
    SizedBlocks(block, transfer, pool, trace);
  }

  lemma OriginalReads(
    stage: Stage, block: nat, code: Command, transfer: Transfer, pool: seq<nat>, trace: Trace, crc: seq<byte> -> nat)
    requires Progress(stage, block, code, transfer, pool, trace, crc) && code.dataMode
    ensures code == trace.original
  {
  }

  /** The bytes of a block arrive at their offset. */
  lemma BlockArrives(
    block: nat, code: Command, transfer: Transfer, pool: seq<nat>, trace: Trace, crc: seq<byte> -> nat, form: Form,
    bytes: seq<byte>)
    requires Sized(block, transfer, pool, trace) && Reads(trace.original) && |bytes| == block && trace.blocks < trace.total
    requires Progress(Stage(1, 1, form, true), block, code, transfer, pool, trace, crc)
    ensures var at := transfer.length - transfer.left - block;
            && 0 <= at && at + block <= |transfer.data|
            && var transfer' := transfer.(data := transfer.data[..at] + bytes + transfer.data[at + block..]);
               var trace' := trace.(arrived := trace.arrived + 1, received := trace.received + bytes);
               Sized(block, transfer', pool, trace')
               && Progress(Stage(0, 1, form, true), block, code, transfer', pool, trace', crc)
  {
    SizedBlocks(block, transfer, pool, trace);
    BlockFits(trace.arrived, trace.total, block);
    assert (trace.total - trace.blocks) * block == trace.arrived * block + block;
    var at := trace.arrived * block;
    BytesPlaced(transfer.data, trace.content, trace.received, bytes);
  }

  /** Bytes behind those received so far leave the rest of the memory as it was. */
  lemma BytesPlaced(data: seq<byte>, content: seq<byte>, received: seq<byte>, bytes: seq<byte>)
    requires |received| + |bytes| <= |data| == |content|
    requires data[..|received|] == received && data[|received|..] == content[|received|..]
    ensures var at, end := |received|, |received| + |bytes|;
            var data' := data[..at] + bytes + data[end..];
            |data'| == |data| && data'[..end] == received + bytes && data'[end..] == content[end..]
  {
    var at, end := |received|, |received| + |bytes|;
    assert data[end..] == data[at..][|bytes|..] && content[end..] == content[at..][|bytes|..];
  }

  lemma DataPhase(next: State, retries: nat, blocks: nat, total: nat, code: Command, open: bool)
    requires Chosen(next, retries, blocks, total, code, open) && (next == ReadData || next == WriteData)
    ensures 0 < blocks && Phase(next, retries, blocks - 1, total, code, open)
    ensures RetriesAfter(next, retries) == retries && BlocksAfter(next, blocks) == blocks - 1
    ensures if next == ReadData then Reads(code) else Writes(code) && open
  {
  }

  /** Entries that neither count nor send anything. */
  lemma PlainEntry(next: State, retries: nat, blocks: nat, total: nat, code: Command, open: bool, offset: int, block: nat)
    requires Chosen(next, retries, blocks, total, code, open)
    requires next == ReadShort || next == ReadLong || next == ReadCrc
             || next == ReadDelay || next == WriteDelay || next == VerifyCrc
    ensures Phase(next, retries, blocks, total, code, open) && StageOf(next, open) == StageBefore(next, open)
    ensures RetriesAfter(next, retries) == retries && BlocksAfter(next, blocks) == blocks
    ensures !Awaited(next, offset, block).Write?
  {
  }

  /** Entries that only start a request leave the data as it is. */
  lemma StagesAgree(next: State, open: bool)
    requires Retries(next) || next == ReadShort || next == ReadLong || next == ReadCrc
             || next == ReadDelay || next == WriteDelay || next == VerifyCrc
    ensures StageOf(next, open) == StageBefore(next, open)
  {
  }

  lemma ResultIsCopied(
    stage: Stage, block: nat, code: Command, transfer: Transfer, pool: seq<nat>, trace: Trace, crc: seq<byte> -> nat,
    commandStatus: Status)
    requires Concluded(code, transfer, commandStatus, block, trace, crc)
    requires Sized(block, transfer, pool, trace) && Progress(stage, block, code, transfer, pool, trace, crc)
    ensures var transfer' := if transfer.status == StatusBusy then transfer.(status := commandStatus) else transfer;
            && Outcome(transfer'.status, transfer'.open, commandStatus, block, trace, crc) && StopIsSent(code, trace)
            && Sized(block, transfer', pool, trace) && Progress(stage, block, code, transfer', pool, trace, crc)
  {
  }

  /** History of a command that has not been sent. */
  function FreshTrace(original: Command, total: nat, content: seq<byte>): Trace {
    Trace(original, total, total, 0, [], [], content, [], [])
  }

  lemma FreshTransfer(
    stage: Stage, block: nat, code: Command, transfer: Transfer, pool: seq<nat>, total: nat, crc: seq<byte> -> nat)
    requires 0 < block && (code.dataMode <==> 0 < total) && transfer.left == transfer.length == total * block <= |transfer.data|
    requires code.checkCrc && code.dataMode ==> total <= |pool|
    requires !stage.begun && stage.missing == 0 && stage.unchecked == 0
    requires stage.form == Uncomputed || (stage.form == Whole && !(Writes(code) && code.checkCrc)) || !code.dataMode
    ensures Sized(block, transfer, pool, FreshTrace(code, total, transfer.data))
    ensures Progress(stage, block, code, transfer, pool, FreshTrace(code, total, transfer.data), crc)
  {
  }

  /** In every state the remaining events are bounded by the blocks that are left. */
  lemma RemainingIsBounded(state: State, retries: nat, blocks: nat, total: nat, code: Command, open: bool)
    requires Phase(state, retries, blocks, total, code, open)
    ensures Remaining(state, retries, blocks, code, open) <= 20000 * blocks + 45000
  {
  }

  /** The pool index and the memory offset of every block are those of its position in the transfer. */
  lemma StoredBlocks(
    stage: Stage, block: nat, code: Command, transfer: Transfer, pool: seq<nat>, trace: Trace, crc: seq<byte> -> nat,
    i: nat)
    requires Sized(block, transfer, pool, trace) && Progress(stage, block, code, transfer, pool, trace, crc)
    requires Reads(trace.original) && i < trace.arrived
    ensures i * block + block <= |trace.received| && i * block + block <= |transfer.data|
    ensures Block(transfer.data, block, i) == Block(trace.received, block, i)
    ensures trace.original.checkCrc && i < |trace.checks| ==> i < |pool| && pool[i] == trace.checks[i]
  {
    BlockFits(i, trace.arrived, block);
    BlockStored(transfer.data, trace.received, block, i);
    if trace.original.checkCrc && i < |trace.checks| {
      assert pool[..|trace.checks|][i] == pool[i];
    }
  }

  class Interface {
    const crc: seq<byte> -> nat
    const timer: bool

    var state: State
    var retries: nat
    var block: nat
    var code: Command
    var commandStatus: Status
    var buffer: seq<byte>
    var response: seq<nat>
    var transfer: Transfer
    var pool: seq<nat>

    var request: Request
    // Completed operations
    var callbacks: nat
    ghost var trace: Trace

    /** `sdioInit`. */
    constructor (timer: bool, capacity: nat, crc: seq<byte> -> nat)
      ensures Ready() && |pool| == capacity && block == 512 && this.timer == timer && this.crc == crc
    {
      this.timer, this.crc := timer, crc;
      state, retries, block := Idle, 0, 512;
      code, commandStatus := STOP_TRANSMISSION, StatusOk;
      buffer, response := seq(18, _ => 0), seq(4, _ => 0);
      transfer, pool := Transfer([], false, 0, 0, StatusOk), seq(capacity, _ => 0);
      request, callbacks := Nothing, 0;
    }

    /** `IF_STATUS`. */
    function GetStatus(): Result
      reads this
    {
      if state != Idle then E_BUSY else
        match transfer.status
        case StatusOk => E_OK
        case StatusBusy => E_BUSY
        case StatusIdle => E_IDLE
        case StatusErrorCrc => E_INTERFACE
        case StatusErrorTimeout => E_TIMEOUT
        case StatusError => E_ERROR
    }

    ghost predicate Consistent()
      reads this
    {
      Sized(block, transfer, pool, trace) && |response| == 4
    }

    ghost predicate Valid()
      reads this
    {
      && Consistent() && Phase(state, retries, trace.blocks, trace.total, code, transfer.open)
      && state != Idle && Answered(state, buffer)
      && Waits(request, Awaited(state, transfer.length - transfer.left, block))
      && Verdict(code, trace.original, transfer.status, block, trace.received, trace.checks, crc)
      && Progress(StageOf(state, transfer.open), block, code, transfer, pool, trace, crc)
    }

    /** The awaited event has occurred; the bytes of the card are in their place. */
    ghost predicate Delivered()
      reads this
    {
      && Consistent() && Phase(state, retries, trace.blocks, trace.total, code, transfer.open)
      && state != Idle && Answered(state, buffer)
      && Verdict(code, trace.original, transfer.status, block, trace.received, trace.checks, crc)
      && Progress(StageOf(state, transfer.open).(missing := 0), block, code, transfer, pool, trace, crc)
    }

    /** The next state has been chosen and is not entered yet. */
    ghost predicate Prepared(next: State)
      reads this
    {
      && Consistent() && Chosen(next, retries, trace.blocks, trace.total, code, transfer.open)
      && Answered(next, buffer)
      && (if next == Idle then Concluded(code, transfer, commandStatus, block, trace, crc)
          else Verdict(code, trace.original, transfer.status, block, trace.received, trace.checks, crc))
      && Progress(StageBefore(next, transfer.open), block, code, transfer, pool, trace, crc)
    }

    /** Bound on the events that are still to come. */
    ghost function Left(): nat
      reads this
    {
      Remaining(state, retries, trace.blocks, code, transfer.open)
    }

    /** The bound after the entry, which counts a retry or a block. */
    ghost function LeftAfter(next: State): nat
      reads this
    {
      Remaining(next, RetriesAfter(next, retries), BlocksAfter(next, trace.blocks), code, transfer.open)
    }

    /** The state table: where the event that ends the request leads; `token` is the first byte of the answer. */
    ghost function Successor(token: byte): State
      reads this
    {
      match state
      case WaitResp =>
        var res := ParseResponseToken(token, retries);
        if res == E_OK || res == E_IDLE then Continuation(code) else if res == E_BUSY then WaitResp else Idle
      case ReadShort => if code.stopTransfer then WriteBusy else Idle
      case WaitLong => Turn(ParseDataToken(token, TOKEN_START, retries), ReadLong, WaitLong)
      case WaitRead => Turn(ParseDataToken(token, TOKEN_START, retries), ReadData, if timer then ReadDelay else WaitRead)
      case ReadCrc =>
        if 0 < trace.blocks then WaitRead
        else if trace.original.checkCrc then VerifyCrc
        else if trace.original.autoStop then SendCmd
        else Idle
      case VerifyCrc => if trace.original.autoStop then SendCmd else Idle
      case ComputeCrc => SendCmd
      case WaitWrite => Turn(ParseDataToken(token % 0x20, TOKEN_DATA_ACCEPTED, retries), WriteBusy, WaitWrite)
      case WriteBusy =>
        if token == 0xFF then AfterBlock(trace.blocks, transfer.open, trace.total)
        else if retries == 0 then Idle
        else if timer then WriteDelay
        else WriteBusy
      case _ => NextOf(state)
    }

    /** The checksum that the answer in the buffer completes. */
    ghost function Checked(): seq<nat>
      reads this
    {
      if state == ReadCrc && |buffer| == 18 then [BigEndian16(buffer[0], buffer[1])] else []
    }

    /** The status of an operation that ends here, unless checksums have decided it. */
    ghost function Ending(token: byte): Status
      reads this
    {
      match state
      case WaitResp => ResultToStatus(ParseResponseToken(token, retries))
      case ReadShort => ResultToStatus(ParseResponseToken(if |buffer| == 18 then buffer[0] else 0, 0))
      case WaitLong => ResultToStatus(ParseDataToken(token, TOKEN_START, retries))
      case WaitRead => ResultToStatus(ParseDataToken(token, TOKEN_START, retries))
      case WaitWrite => ResultToStatus(ParseDataToken(token % 0x20, TOKEN_DATA_ACCEPTED, retries))
      case WriteBusy => if token == 0xFF then StatusOk else StatusErrorTimeout
      case _ => StatusOk
    }

    /** The words of the response after the answer in the buffer. */
    ghost function Replied(): seq<nat>
      reads this
    {
      if |buffer| != 18 || |response| != 4 then response else
        match state
        case ReadShort => [BigEndian32(buffer[1], buffer[2], buffer[3], buffer[4])] + response[1..]
        case ReadLong => [WordAt(buffer, 3), WordAt(buffer, 2), WordAt(buffer, 1), WordAt(buffer, 0)]
        case _ => response
    }

    /** The event leads where the table says, with the status and the response that the answer gives. */
    twostate predicate Stepped(next: State)
      reads this
    {
      && Grows(old(trace), trace, [], old(Checked()), Nothing)
      && |buffer| == |old(buffer)| == 18 && next == old(Successor(buffer[0])) && response == old(Replied())
      && (next == Idle && old(state) != VerifyCrc ==>
            commandStatus == old(Ending(buffer[0])) && transfer.status == old(transfer.status))
    }

    method WaitRespAdvance() returns (next: State)
      requires Delivered() && state == WaitResp
      modifies this`retries, this`commandStatus
      ensures Stepped(next)
      ensures Prepared(next) && LeftAfter(next) < old(Left())
      ensures var res := ParseResponseToken(buffer[0], old(retries));
              && next == (if res == E_OK || res == E_IDLE then Continuation(code)
                          else if res == E_BUSY then WaitResp else Idle)
              && (next == Idle ==> commandStatus == ResultToStatus(res))
    {
      hide Grows, BigEndian16, BigEndian32, WordAt, Continuation, Progress, Intact, Sized, ParseResponseToken;
      NothingNew(trace);
      ProgressCounts(StageOf(state, transfer.open).(missing := 0), block, code, transfer, pool, trace, crc);
      ResponseIsFinal(buffer[0], retries);
      var res := ParseResponseToken(buffer[0], retries);
      if res == E_OK || res == E_IDLE {
        next := Accepted(res);
      } else if res == E_BUSY {
        next := WaitResp;
      } else {
        commandStatus := ResultToStatus(res);
        next := Idle;
      }
    }

    /** The part of `stateWaitRespAdvance` for a command that the card has accepted. */
    method Accepted(res: Result) returns (next: State)
      requires Delivered() && state == WaitResp
      requires buffer[0] != 0xFF && res == ParseResponseToken(buffer[0], 0) && res in {E_OK, E_IDLE}
      modifies this`retries, this`commandStatus
      ensures Prepared(next) && LeftAfter(next) < old(Left())
      ensures next == Continuation(code) && (next == Idle ==> commandStatus == ResultToStatus(res))
    {
      hide Progress, Intact, Sized, ParseResponseToken;
      ProgressCounts(StageOf(state, transfer.open).(missing := 0), block, code, transfer, pool, trace, crc);
      if code.dataMode {
        if code.writeMode {
          return WriteToken;
        } else {
          retries := BUSY_READ_RETRIES;
          return WaitRead;
        }
      }
      match code.response
      case ShortResponse =>
        return ReadShort;
      case LongResponse =>
        retries := TOKEN_RETRIES;
        return WaitLong;
      case NoResponse =>
        commandStatus := ResultToStatus(res);
        return Idle;
    }

    method ReadShortAdvance() returns (next: State)
      requires Delivered() && state == ReadShort
      modifies this`retries, this`commandStatus, this`response
      ensures Stepped(next)
      ensures Prepared(next) && LeftAfter(next) < old(Left())
      ensures next == if code.stopTransfer then WriteBusy else Idle
      ensures commandStatus == ResultToStatus(ParseResponseToken(buffer[0], 0))
      ensures response == [BigEndian32(buffer[1], buffer[2], buffer[3], buffer[4])] + old(response)[1..]
    {
      hide Grows, BigEndian16, BigEndian32, WordAt, Progress, Intact, Sized, ParseResponseToken;
      NothingNew(trace);
      ProgressCounts(StageOf(state, transfer.open).(missing := 0), block, code, transfer, pool, trace, crc);
      ResponseIsFinal(buffer[0], retries);
      response := response[0 := BigEndian32(buffer[1], buffer[2], buffer[3], buffer[4])];
      var res := ParseResponseToken(buffer[0], retries);
      commandStatus := ResultToStatus(res);
      if code.stopTransfer {
        retries := BUSY_WRITE_RETRIES;
        next := WriteBusy;
      } else {
        next := Idle;
      }
    }

    method WaitLongAdvance() returns (next: State)
      requires Delivered() && state == WaitLong
      modifies this`commandStatus
      ensures Stepped(next)
      ensures Prepared(next) && LeftAfter(next) < old(Left())
      ensures var res := ParseDataToken(buffer[0], TOKEN_START, retries);
              && next == Turn(res, ReadLong, WaitLong)
              && (next == Idle ==> commandStatus == ResultToStatus(res))
    {
      hide Grows, BigEndian16, BigEndian32, WordAt, Progress, Intact, Sized;
      NothingNew(trace);
      ProgressCounts(StageOf(state, transfer.open).(missing := 0), block, code, transfer, pool, trace, crc);
      var res := ParseDataToken(buffer[0], TOKEN_START, retries);
      if res == E_OK {
        next := ReadLong;
      } else if res == E_BUSY {
        next := WaitLong;
      } else {
        commandStatus := ResultToStatus(res);
        next := Idle;
      }
    }

    method UnpackLong()
      requires |response| == 4 && |buffer| == 18
      modifies this`response
      ensures |response| == 4
      ensures forall i | 0 <= i < 4 ::
                response[3 - i] == WordAt(buffer, i)
    {
      hide BigEndian32;
      var index := 0;
      while index < 4
        invariant index <= 4 && |response| == 4
        invariant forall i | 0 <= i < index ::
                    response[3 - i] == WordAt(buffer, i)
      {
        var at := 4 * index;
        response := response[3 - index := BigEndian32(buffer[at], buffer[at + 1], buffer[at + 2], buffer[at + 3])];
        index := index + 1;
      }
    }

    static lemma LongWords(response: seq<nat>, buffer: seq<byte>)
      requires |response| == 4 && |buffer| == 18
      requires forall i | 0 <= i < 4 ::
                 response[3 - i] == WordAt(buffer, i)
      ensures response == [WordAt(buffer, 3), WordAt(buffer, 2), WordAt(buffer, 1), WordAt(buffer, 0)]
    {
      assert response[3 - 0] == WordAt(buffer, 0) && response[3 - 1] == WordAt(buffer, 1);
      assert response[3 - 2] == WordAt(buffer, 2) && response[3 - 3] == WordAt(buffer, 3);
    }

    method ReadLongAdvance() returns (next: State)
      requires Delivered() && state == ReadLong
      modifies this`commandStatus, this`response
      ensures Stepped(next)
      ensures Prepared(next) && LeftAfter(next) < old(Left())
      ensures next == Idle && commandStatus == StatusOk
      ensures |response| == 4
      ensures forall i | 0 <= i < 4 ::
                response[3 - i] == WordAt(buffer, i)
    {
      hide Grows, BigEndian16, BigEndian32, WordAt, Progress, Intact, Sized;
      NothingNew(trace);
      ProgressCounts(StageOf(state, transfer.open).(missing := 0), block, code, transfer, pool, trace, crc);
      UnpackLong();
      LongWords(response, buffer);
      commandStatus := StatusOk;
      return Idle;
    }

    method WaitReadAdvance() returns (next: State)
      requires Delivered() && state == WaitRead
      modifies this`commandStatus
      ensures Stepped(next)
      ensures Prepared(next) && LeftAfter(next) < old(Left())
      ensures var res := ParseDataToken(buffer[0], TOKEN_START, retries);
              && next == Turn(res, ReadData, if timer then ReadDelay else WaitRead)
              && (next == Idle ==> commandStatus == ResultToStatus(res))
    {
      hide Grows, BigEndian16, BigEndian32, WordAt, Progress, Intact, Sized;
      NothingNew(trace);
      ProgressCounts(StageOf(state, transfer.open).(missing := 0), block, code, transfer, pool, trace, crc);
      var res := ParseDataToken(buffer[0], TOKEN_START, retries);
      if res == E_OK {
        next := ReadData;
      } else if res == E_BUSY {
        next := if timer then ReadDelay else WaitRead;
      } else {
        commandStatus := ResultToStatus(res);
        next := Idle;
      }
    }

    method WaitWriteAdvance() returns (next: State)
      requires Delivered() && state == WaitWrite
      modifies this`retries, this`commandStatus
      ensures Stepped(next)
      ensures Prepared(next) && LeftAfter(next) < old(Left())
      ensures var res := ParseDataToken(buffer[0] % 0x20, TOKEN_DATA_ACCEPTED, old(retries));
              && next == Turn(res, WriteBusy, WaitWrite)
              && (next == Idle ==> commandStatus == ResultToStatus(res))
      ensures next != WaitWrite
    {
      hide Grows, BigEndian16, BigEndian32, WordAt, Progress, Intact, Sized;
      NothingNew(trace);
      ProgressCounts(StageOf(state, transfer.open).(missing := 0), block, code, transfer, pool, trace, crc);
      var token := buffer[0] % 0x20;
      var res := ParseDataToken(token, TOKEN_DATA_ACCEPTED, retries);
      if res == E_OK {
        retries := BUSY_WRITE_RETRIES;
        next := WriteBusy;
      } else if res == E_BUSY {
        next := WaitWrite;
      } else {
        commandStatus := ResultToStatus(res);
        next := Idle;
      }
    }

    method WriteBusyAdvance() returns (next: State)
      requires Delivered() && state == WriteBusy
      modifies this`retries, this`commandStatus, this`transfer
      ensures Stepped(next)
      ensures Prepared(next) && LeftAfter(next) < old(Left())
      ensures buffer[0] != 0xFF ==>
                next == if old(retries) == 0 then Idle else if timer then WriteDelay else WriteBusy
      ensures buffer[0] != 0xFF && next == Idle ==> commandStatus == StatusErrorTimeout
      ensures buffer[0] == 0xFF ==> next == AfterBlock(trace.blocks, old(transfer.open), trace.total)
      ensures buffer[0] == 0xFF && next == Idle ==> commandStatus == StatusOk
    {
      hide Grows, BigEndian16, BigEndian32, WordAt, AfterBlock, Progress, Intact, Sized;
      NothingNew(trace);
      ProgressCounts(StageOf(state, transfer.open).(missing := 0), block, code, transfer, pool, trace, crc);
      if buffer[0] == 0xFF {
        next := CardReady();
      } else if retries == 0 {
        commandStatus := StatusErrorTimeout;
        next := Idle;
      } else {
        next := if timer then WriteDelay else WriteBusy;
      }
    }

    /** The part of `stateWriteBusyAdvance` for a card that is not busy. */
    method CardReady() returns (next: State)
      requires Delivered() && state == WriteBusy
      modifies this`retries, this`commandStatus, this`transfer
      ensures Prepared(next) && LeftAfter(next) < old(Left())
      ensures transfer.status == old(transfer.status)
      ensures next == AfterBlock(trace.blocks, old(transfer.open), trace.total)
      ensures next == Idle ==> commandStatus == StatusOk
    {
      hide Progress, Intact, Sized;
      ProgressCounts(StageOf(state, transfer.open).(missing := 0), block, code, transfer, pool, trace, crc);
      SizedBlocks(block, transfer, pool, trace);
      if transfer.left != 0 {
        return WriteToken;
      }
      if transfer.open && block < transfer.length {
        TransferCloses(block, code, transfer, pool, trace, crc);
        transfer := transfer.(open := false);
        retries := BUSY_WRITE_RETRIES;
        return WriteStop;
      } else {
        commandStatus := StatusOk;
        return Idle;
      }
    }

    method ReadCrcAdvance() returns (next: State)
      requires Delivered() && state == ReadCrc
      modifies this`retries, this`commandStatus, this`code, this`trace, this`pool
      ensures Stepped(next)
      ensures Prepared(next) && LeftAfter(next) < old(Left()) 
      ensures trace == old(trace).(checks := old(trace).checks + [BigEndian16(buffer[0], buffer[1])])
      ensures next == if 0 < trace.blocks then WaitRead else if trace.original.checkCrc then VerifyCrc
                      else if trace.original.autoStop then SendCmd else Idle
      ensures next == SendCmd ==> code == STOP_TRANSMISSION
      ensures next == Idle ==> commandStatus == StatusOk
    {
      hide Progress, Intact, Sized, BigEndian16;
      ProgressCounts(StageOf(state, transfer.open).(missing := 0), block, code, transfer, pool, trace, crc);
      KeepChecksum(BigEndian16(buffer[0], buffer[1]));
      SizedBlocks(block, transfer, pool, trace);
      if transfer.left != 0 {
        retries := BUSY_READ_RETRIES;
        next := WaitRead;
      } else if code.checkCrc {
        next := VerifyCrc;
      } else {
        next := DataRead();
      }
    }

    /** The end of `stateReadCrcAdvance` for a read without verification. */
    method DataRead() returns (next: State)
      requires Consistent() && Answered(state, buffer) && Phase(state, retries, trace.blocks, trace.total, code, transfer.open)
      requires state == ReadCrc && trace.blocks == 0 && code == trace.original && !code.checkCrc
      requires transfer.status == StatusBusy
      requires Progress(StageBefore(WaitRead, transfer.open), block, code, transfer, pool, trace, crc)
      modifies this`retries, this`commandStatus, this`code
      ensures Prepared(next) && LeftAfter(next) < old(Left())
      ensures next == if trace.original.autoStop then SendCmd else Idle
      ensures next == SendCmd ==> code == STOP_TRANSMISSION
      ensures next == Idle ==> commandStatus == StatusOk
    {
      hide Progress, Intact, Sized;
      if code.autoStop {
        StopInjected(block, code, transfer, pool, trace, crc, StageBefore(WaitRead, transfer.open).form);
        AutoStopTransmission();
        return SendCmd;
      } else {
        ProgressCounts(StageBefore(Idle, transfer.open), block, code, transfer, pool, trace, crc);
        commandStatus := StatusOk;
        return Idle;
      }
    }

    /** Stores the checksum of the block that was read last. */
    method KeepChecksum(checksum: nat)
      requires Delivered() && state == ReadCrc
      modifies this`trace, this`pool
      ensures trace == old(trace).(checks := old(trace).checks + [checksum])
      ensures Sized(block, transfer, pool, trace)
      ensures Progress(StageBefore(WaitRead, transfer.open), block, code, transfer, pool, trace, crc)
    {
      SizedBlocks(block, transfer, pool, trace);
      ProgressCounts(StageOf(state, transfer.open), block, code, transfer, pool, trace, crc);
      hide Progress;
      ghost var before := pool;
      if code.checkCrc {
        var bytesReceived := transfer.length - transfer.left;
        var blockIndex := bytesReceived / block - 1;
        pool := pool[blockIndex := checksum];
      }
      ChecksumKept(block, code, transfer, before, trace, crc, StageOf(state, transfer.open).form, checksum, pool);
      trace := trace.(checks := trace.checks + [checksum]);
    }

    method AutoStopTransmission()
      modifies this`commandStatus, this`code, this`retries
      ensures commandStatus == StatusOk && code == STOP_TRANSMISSION && retries == TOKEN_RETRIES
    {
      commandStatus := StatusOk;
      code := STOP_TRANSMISSION;
      retries := TOKEN_RETRIES;
    }

    method VerifyCrcAdvance() returns (next: State)
      requires Delivered() && state == VerifyCrc
      modifies this`retries, this`commandStatus, this`code, this`transfer
      ensures Stepped(next)
      ensures Prepared(next) && LeftAfter(next) < old(Left())
      ensures next == if trace.original.autoStop then SendCmd else Idle
    {
      hide Grows, BigEndian16, BigEndian32, WordAt, Progress, Intact, Sized;
      NothingNew(trace);
      ProgressCounts(StageOf(state, transfer.open).(missing := 0), block, code, transfer, pool, trace, crc);
      var correct := ChecksumsMatch();
      StatusKept(StageOf(state, transfer.open), block, code, transfer, pool, trace, crc,
                 if correct then StatusOk else StatusErrorCrc);
      transfer := transfer.(status := if correct then StatusOk else StatusErrorCrc);
      next := Verified();
    }

    /** The end of `stateVerifyCrcAdvance`. */
    method Verified() returns (next: State)
      requires Consistent() && Answered(state, buffer) && Phase(state, retries, trace.blocks, trace.total, code, transfer.open)
      requires state == VerifyCrc && code == trace.original
      requires transfer.status == if Intact(trace.received, block, trace.checks, crc) then StatusOk else StatusErrorCrc
      requires Progress(StageBefore(WaitRead, transfer.open), block, code, transfer, pool, trace, crc)
      modifies this`retries, this`commandStatus, this`code
      ensures Prepared(next) && LeftAfter(next) < old(Left())
      ensures next == if trace.original.autoStop then SendCmd else Idle
    {
      hide Progress, Intact, Sized;
      if code.autoStop {
        StopInjected(block, code, transfer, pool, trace, crc, StageBefore(WaitRead, transfer.open).form);
        AutoStopTransmission();
        return SendCmd;
      } else {
        ProgressCounts(StageBefore(Idle, transfer.open), block, code, transfer, pool, trace, crc);
        commandStatus := transfer.status;
        return Idle;
      }
    }

    /** The loop of `stateVerifyCrcAdvance`. */
    method ChecksumsMatch() returns (correct: bool)
      requires Delivered() && state == VerifyCrc
      ensures correct <==> Intact(trace.received, block, trace.checks, crc)
    {
      SizedBlocks(block, transfer, pool, trace);
      var count := transfer.length / block;
      correct := true;
      var index := 0;
      while index < count
        invariant index <= count == |trace.checks| && correct
        invariant forall i | 0 <= i < index && i * block + block <= |trace.received| ::
                    crc(Block(trace.received, block, i)) == trace.checks[i]
      {
        BlockFits(index, trace.total, block);
        BlockStored(transfer.data, trace.received, block, index);
        var checksum := crc(transfer.data[index * block..index * block + block]);
        assert pool[..|trace.checks|][index] == trace.checks[index];
        if checksum != pool[index] {
          DiffersSomewhere(trace.received, block, trace.checks, crc, index);
          correct := false;
          break;
        }
        index := index + 1;
      }
    }

    method ComputeCrcAdvance() returns (next: State)
      requires Delivered() && state == ComputeCrc
      modifies this`pool
      ensures Stepped(next)
      ensures Prepared(next) && LeftAfter(next) < old(Left()) && next == SendCmd
    {
      hide Grows, BigEndian16, BigEndian32, WordAt, Progress, Intact, Sized;
      NothingNew(trace);
      ProgressCounts(StageOf(state, transfer.open).(missing := 0), block, code, transfer, pool, trace, crc);
      ghost var before := pool;
      ComputeChecksums();
      SumsComputed(block, code, transfer, before, trace, crc, pool);
      return SendCmd;
    }

    /** The loop of `stateComputeCrcAdvance`. */
    method ComputeChecksums()
      requires Delivered() && state == ComputeCrc
      modifies this`pool
      ensures |pool| == |old(pool)| && Summed(pool, trace.content, block, trace.total, crc)
    {
      SizedBlocks(block, transfer, pool, trace);
      var count := transfer.length / block;
      var index := 0;
      while index < count
        invariant index <= count == trace.total <= |pool| == |old(pool)|
        invariant forall i | 0 <= i < index && i * block + block <= |trace.content| ::
                    pool[i] == crc(Block(trace.content, block, i))
      {
        BlockFits(index, trace.total, block);
        pool := pool[index := crc(transfer.data[index * block..index * block + block])];
        index := index + 1;
      }
    }

    /** The default transition of the states without an advance function. */
    static function NextOf(state: State): State {
      match state
      case Init => SendCmd
      case SendCmd => WaitResp
      case ReadData => ReadCrc
      case ReadDelay => WaitRead
      case WriteToken => WriteData
      case WriteData => WriteCrc
      case WriteCrc => WaitWrite
      case WriteDelay => WriteBusy
      case WriteStop => WriteBusy
      case _ => Idle
    }

    lemma DefaultAdvance()
      requires Delivered() && NextOf(state) != Idle
      ensures Prepared(NextOf(state)) && LeftAfter(NextOf(state)) < Left()
    {
      hide Progress, Intact, Sized;
      ProgressCounts(StageOf(state, transfer.open).(missing := 0), block, code, transfer, pool, trace, crc);
    }

    twostate lemma DefaultStep()
      requires old(Delivered()) && old(NextOf(state)) != Idle && state == old(state)
      requires trace == old(trace) && buffer == old(buffer) && response == old(response)
      ensures Stepped(NextOf(state))
    {
    }

    /** `stateWaitRespEnter` and `stateRequestToken`. */
    method RequestToken(next: State)
      requires Prepared(next) && Retries(next)
      modifies this`state, this`retries, this`request
      ensures state == next
      ensures Valid() && Left() == old(LeftAfter(next)) && request == Read(0, 1)
    {
      hide Grows, Progress, Sized, Phase, Chosen, Remaining, Verdict, Concluded, StageOf, StageBefore;
      EntryKeepsPhase(next, retries, trace.blocks, trace.total, code, transfer.open);
      StagesAgree(next, transfer.open);
      NothingSent(trace, Read(0, 1));
      state := next;
      retries := retries - 1;
      request := Read(0, 1);
    }

    /** `stateReadDataEnter`. */
    method ReadDataEnter()
      requires Prepared(ReadData)
      modifies this`state, this`transfer, this`trace, this`request
      ensures state == ReadData
      ensures Valid() && Left() == old(LeftAfter(ReadData)) && Grows(old(trace), trace, [], [], request)
    {
      hide Progress, Sized, Phase, Chosen, Remaining, Verdict, Concluded, StageOf, StageBefore, RetriesAfter, BlocksAfter, Reads, Writes;
      DataPhase(ReadData, retries, trace.blocks, trace.total, code, transfer.open);
      BlockRequested(block, code, transfer, pool, trace, crc);
      var offset := transfer.length - transfer.left;
      transfer := transfer.(left := transfer.left - block);
      trace := trace.(blocks := trace.blocks - 1);
      state := ReadData;
      request := ReadBlock(offset);
    }

    /** `stateWriteTokenEnter`. */
    method WriteTokenEnter()
      requires Prepared(WriteToken)
      modifies this`state, this`retries, this`request, this`trace
      ensures state == WriteToken
      ensures Valid() && Left() == old(LeftAfter(WriteToken)) && Grows(old(trace), trace, [], [], request)
    {
      hide Progress, Sized, Phase, Chosen, Remaining, Verdict, Concluded, StageOf, StageBefore;
      EntryKeepsPhase(WriteToken, retries, trace.blocks, trace.total, code, transfer.open);
      SizedBlocks(block, transfer, pool, trace);
      FrameBegins(block, code, transfer, pool, trace, crc);
      var token := if 1 < transfer.length / block then TOKEN_START_MULTIPLE else TOKEN_START;
      trace := trace.(wire := trace.wire + [Token(token)]);
      state := WriteToken;
      retries := TOKEN_RETRIES;
      request := Write(Part(Token(token)));
    }

    /** `stateWriteDataEnter`. */
    method WriteDataEnter()
      requires Prepared(WriteData)
      modifies this`state, this`transfer, this`trace, this`request
      ensures state == WriteData
      ensures Valid() && Left() == old(LeftAfter(WriteData)) && Grows(old(trace), trace, [], [], request)
    {
      hide Progress, Sized, Phase, Chosen, Remaining, Verdict, Concluded, StageOf, StageBefore, RetriesAfter, BlocksAfter, Reads, Writes;
      DataPhase(WriteData, retries, trace.blocks, trace.total, code, transfer.open);
      FrameFilled(block, code, transfer, pool, trace, crc);
      var offset := transfer.length - transfer.left;
      var bytes := transfer.data[offset..offset + block];
      transfer := transfer.(left := transfer.left - block);
      trace := trace.(blocks := trace.blocks - 1, arrived := trace.arrived + 1, wire := trace.wire + [Data(bytes)]);
      state := WriteData;
      request := Write(Part(Data(bytes)));
    }

    /** `stateWriteCrcEnter`. */
    method WriteCrcEnter()
      requires Prepared(WriteCrc)
      modifies this`state, this`request, this`trace
      ensures state == WriteCrc
      ensures Valid() && Left() == old(LeftAfter(WriteCrc)) && Grows(old(trace), trace, [], [], request)
    {
      hide Progress, Sized, Phase, Chosen, Remaining, Verdict, Concluded, StageOf, StageBefore;
      EntryKeepsPhase(WriteCrc, retries, trace.blocks, trace.total, code, transfer.open);
      SizedBlocks(block, transfer, pool, trace);
      FrameEnds(block, code, transfer, pool, trace, crc);
      var checksum := 0xFFFF;
      if code.checkCrc {
        var bytesReceived := transfer.length - transfer.left;
        var blockIndex := bytesReceived / block - 1;
        checksum := pool[blockIndex];
      }
      trace := trace.(wire := trace.wire + [Checksum(checksum)]);
      state := WriteCrc;
      request := Write(Part(Checksum(checksum)));
    }

    /** `stateWriteStopEnter`. */
    method WriteStopEnter()
      requires Prepared(WriteStop)
      modifies this`state, this`request, this`trace
      ensures state == WriteStop
      ensures Valid() && Left() == old(LeftAfter(WriteStop)) && Grows(old(trace), trace, [], [], request)
    {
      hide Progress, Sized, Phase, Chosen, Remaining, Verdict, Concluded, StageOf, StageBefore;
      EntryKeepsPhase(WriteStop, retries, trace.blocks, trace.total, code, transfer.open);
      StopSent(block, code, transfer, pool, trace, crc);
      trace := trace.(wire := trace.wire + [Token(TOKEN_STOP)]);
      state := WriteStop;
      request := Write(Part(Token(TOKEN_STOP)));
    }

    /** `stateSendCommandEnter`. */
    method SendCommandEnter()
      requires Prepared(SendCmd)
      modifies this`state, this`retries, this`request, this`trace
      ensures state == SendCmd
      ensures Valid() && Left() == old(LeftAfter(SendCmd)) && Grows(old(trace), trace, [], [], request)
      ensures request == Write(Start(code))
    {
      hide Progress, Sized, Phase, Chosen, Remaining, Verdict, Concluded, StageOf, StageBefore;
      EntryKeepsPhase(SendCmd, retries, trace.blocks, trace.total, code, transfer.open);
      CommandSent(block, code, transfer, pool, trace, crc);
      retries := TOKEN_RETRIES;
      trace := trace.(commands := trace.commands + [code]);
      state := SendCmd;
      request := Write(Start(code));
    }

    /** The entries that only start a request of the bus, the timer or the work queue. */
    method RequestEnter(next: State)
      requires Prepared(next)
      requires next == ReadShort || next == ReadLong || next == ReadCrc || next == ReadDelay
               || next == WriteDelay || next == VerifyCrc
      modifies this`state, this`request
      ensures state == next
      ensures Valid() && Left() == old(LeftAfter(next)) && Grows(old(trace), trace, [], [], request)
    {
      hide Grows, Progress, Sized, Phase, Chosen, Remaining, Verdict, Concluded, StageOf, StageBefore;
      hide RetriesAfter, BlocksAfter, Awaited;
      PlainEntry(next, retries, trace.blocks, trace.total, code, transfer.open, transfer.length - transfer.left, block);
      NothingSent(trace, Awaited(next, transfer.length - transfer.left, block));
      state := next;
      request := Awaited(next, transfer.length - transfer.left, block);
    }

    /** The enter functions of the state table. */
    method Enter(next: State)
      requires Prepared(next) && next != Idle && next != Init && next != ComputeCrc
      modifies this`state, this`retries, this`request, this`transfer, this`trace
      ensures Valid() && Left() == old(LeftAfter(next)) && Grows(old(trace), trace, [], [], request)
      ensures state == next
    {
      hide Prepared, Valid, Left, LeftAfter;
      match next
      case SendCmd => SendCommandEnter();
      case WaitResp => RequestToken(next);
      case WaitLong => RequestToken(next);
      case WaitRead => RequestToken(next);
      case WaitWrite => RequestToken(next);
      case WriteBusy => RequestToken(next);
      case ReadData => ReadDataEnter();
      case WriteToken => WriteTokenEnter();
      case WriteData => WriteDataEnter();
      case WriteCrc => WriteCrcEnter();
      case WriteStop => WriteStopEnter();
      case ReadShort => RequestEnter(next);
      case ReadLong => RequestEnter(next);
      case ReadCrc => RequestEnter(next);
      case ReadDelay => RequestEnter(next);
      case WriteDelay => RequestEnter(next);
      case VerifyCrc => RequestEnter(next);
    }

    /** The advance functions of the state table. */
    method Advance() returns (next: State)
      requires Delivered()
      modifies this`retries, this`commandStatus, this`code, this`response, this`transfer, this`pool, this`trace
      ensures Prepared(next) && LeftAfter(next) < old(Left())
      ensures Stepped(next)
    {
      hide Stepped, Prepared, LeftAfter, Left, Progress, Sized, Intact;
      if NextOf(state) != Idle {
        DefaultAdvance();
        DefaultStep();
        return NextOf(state);
      }
      match state
      case WaitResp => next := WaitRespAdvance();
      case ReadShort => next := ReadShortAdvance();
      case WaitLong => next := WaitLongAdvance();
      case ReadLong => next := ReadLongAdvance();
      case WaitRead => next := WaitReadAdvance();
      case ReadCrc => next := ReadCrcAdvance();
      case WaitWrite => next := WaitWriteAdvance();
      case WriteBusy => next := WriteBusyAdvance();
      case ComputeCrc => next := ComputeCrcAdvance();
      case VerifyCrc => next := VerifyCrcAdvance();
    }

    lemma NeverChosen(next: State)
      requires Prepared(next)
      ensures next != Init && next != ComputeCrc
    {
    }

    /** The operation is over and its result is known. */
    ghost predicate Finished()
      reads this
    {
      && Consistent() && state == Idle && |buffer| == 18 && StopIsSent(code, trace)
      && Outcome(transfer.status, transfer.open, commandStatus, block, trace, crc)
      && Progress(StageBefore(Idle, transfer.open), block, code, transfer, pool, trace, crc)
    }

    /** The end of `interruptHandler` when the operation is over. */
    method Finish()
      requires Prepared(Idle)
      modifies this`state, this`transfer, this`request, this`callbacks
      ensures Finished() && state == Idle && request == Nothing && callbacks == old(callbacks) + 1
      ensures transfer.status == if old(transfer.status) == StatusBusy then commandStatus else old(transfer.status)
    {
      hide Progress, Sized, Chosen, Remaining, Phase, Intact;
      state := Idle;
      ResultIsCopied(StageBefore(Idle, transfer.open), block, code, transfer, pool, trace, crc, commandStatus);
      if transfer.status == StatusBusy {
        transfer := transfer.(status := commandStatus);
      }
      request := Nothing;
      callbacks := callbacks + 1;
    }

    /** The end of `interruptHandler`: the next state is entered, or the operation is over. */
    method GoOn(next: State)
      requires Prepared(next)
      modifies this`state, this`retries, this`request, this`transfer, this`trace, this`callbacks
      ensures state == next && Grows(old(trace), trace, [], [], request)
      ensures if next == Idle then
                && Finished() && request == Nothing && callbacks == old(callbacks) + 1
                && transfer.status == if old(transfer.status) == StatusBusy then commandStatus else old(transfer.status)
              else Valid() && Left() == old(LeftAfter(next)) && callbacks == old(callbacks)
    {
      NeverChosen(next);
      hide Prepared, Valid, Finished, Grows, Left, LeftAfter;
      if next != Idle {
        Enter(next);
      } else {
        Finish();
        NothingNew(trace);
      }
    }

    /** `interruptHandler`. */
    method InterruptHandler()
      requires Delivered()
      modifies this
      ensures Grows(old(trace), trace, [], old(Checked()), request) && block == old(block)
      ensures state == old(Successor(buffer[0])) && (state == Idle ==> request == Nothing)
      ensures response == old(Replied())
      ensures state == Idle && old(state) != VerifyCrc ==>
                transfer.status == if old(transfer.status) == StatusBusy then old(Ending(buffer[0])) else old(transfer.status)
      ensures if state == Idle then Finished() && callbacks == old(callbacks) + 1
              else Valid() && Left() < old(Left()) && callbacks == old(callbacks)
    {
      ghost var before, checked := trace, Checked();
      assert |buffer| == 18;
      hide Delivered, Prepared, Valid, Finished, Grows, Successor, Ending, Replied, Checked, Left, LeftAfter;
      var next := Advance();
      ghost var advanced := trace;
      GoOn(next);
      GrowthsJoin(before, advanced, trace, [], checked, request);
    }

    /** Environment: the request ends, and the card has answered with `input`. */
    method Complete(input: seq<byte>)
      requires Valid() && |input| == Requested(request, block)
      modifies this
      ensures Grows(old(trace), trace, BytesOf(old(request), input), ChecksumOf(old(request), input), request)
      ensures block == old(block)
      ensures state == old(Successor(if input == [] then 0 else input[0])) && (state == Idle ==> request == Nothing)
      ensures state == Idle && old(state) != VerifyCrc ==>
                transfer.status == if old(transfer.status) != StatusBusy then old(transfer.status)
                                   else old(Ending(if input == [] then 0 else input[0]))
      ensures match old(state)
              case ReadShort =>
                |input| == 4 && |old(response)| == 4
                && response == [BigEndian32(input[0], input[1], input[2], input[3])] + old(response)[1..]
              case ReadLong =>
                |input| == 18 && response == [WordAt(input, 3), WordAt(input, 2), WordAt(input, 1), WordAt(input, 0)]
              case _ => response == old(response)
      ensures if state == Idle then Finished() && callbacks == old(callbacks) + 1
              else Valid() && Left() < old(Left()) && callbacks == old(callbacks)
    {
      hide BigEndian16, ParseResponseToken, ParseDataToken, Progress, Sized, Remaining, Phase, Intact;
      ghost var before := trace;
      Deliver(input);
      ghost var delivered := trace;
      InterruptHandler();
      GrowthsJoinFirst(before, delivered, trace, BytesOf(old(request), input), ChecksumOf(old(request), input), request);
    }

    lemma DataIsRead()
      requires Valid() && state == ReadData
      ensures Reads(code) && trace.blocks < trace.total
    {
    }

    /** The bytes of the card reach the command buffer or the memory of the transfer. */
    method Deliver(input: seq<byte>)
      requires Valid() && |input| == Requested(request, block)
      modifies this`buffer, this`transfer, this`trace
      ensures Delivered() && Left() == old(Left()) && trace.blocks == old(trace.blocks)
      ensures Grows(old(trace), trace, BytesOf(request, input), [], Nothing)
      ensures request.Read? ==>
                request.at + request.count <= |old(buffer)| && transfer == old(transfer)
                && buffer == old(buffer)[..request.at] + input + old(buffer)[request.at + request.count..]
      ensures !request.Read? ==> buffer == old(buffer)
      ensures request.ReadBlock? ==> 0 <= request.offset && request.offset + block <= |old(transfer).data|
      ensures transfer == if !request.ReadBlock? then old(transfer) else
                old(transfer).(data := old(transfer).data[..request.offset] + input
                                       + old(transfer).data[request.offset + block..])
    {
      hide Valid, Delivered, Left;
      if request.ReadBlock? {
        DeliverBlock(request.offset, input);
      } else {
        DeliverAnswer(input);
      }
    }

    method DeliverBlock(offset: int, input: seq<byte>)
      requires Valid() && request == ReadBlock(offset) && |input| == block
      modifies this`transfer, this`trace
      ensures Delivered() && Left() == old(Left())
      ensures 0 <= offset && offset + block <= |old(transfer).data|
      ensures transfer == old(transfer).(data := old(transfer).data[..offset] + input + old(transfer).data[offset + block..])
      ensures trace == old(trace).(arrived := old(trace).arrived + 1, received := old(trace).received + input)
    {
      hide Progress, Sized, Remaining, Phase;
      DataIsRead();
      OriginalReads(StageOf(state, transfer.open), block, code, transfer, pool, trace, crc);
      BlockArrives(block, code, transfer, pool, trace, crc, StageOf(state, transfer.open).form, input);
      transfer := transfer.(data := transfer.data[..offset] + input + transfer.data[offset + block..]);
      trace := trace.(arrived := trace.arrived + 1, received := trace.received + input);
    }

    method DeliverAnswer(input: seq<byte>)
      requires Valid() && !request.ReadBlock? && |input| == Requested(request, block)
      modifies this`buffer
      ensures Delivered() && Left() == old(Left())
      ensures request.Read? ==>
                request.at + request.count <= |old(buffer)|
                && buffer == old(buffer)[..request.at] + input + old(buffer)[request.at + request.count..]
      ensures !request.Read? ==> buffer == old(buffer)
    {
      hide Progress, Sized, Remaining, Phase;
      if request.Read? {
        buffer := buffer[..request.at] + input + buffer[request.at + request.count..];
      }
    }

    /** Between operations. */
    ghost predicate Ready()
      reads this
    {
      state == Idle && 0 < block && |buffer| == 18 && |response| == 4
    }

    lemma EntryOfCommand(retries: nat, code: Command)
      requires !code.dataMode
      ensures Chosen(SendCmd, retries, 0, 0, code, false) && Phase(Init, retries, 0, 0, code, false)
    {
    }

    /** `IF_SDIO_EXECUTE` and `execute`. */
    method Execute()
      requires Ready() && !code.dataMode
      modifies this
      ensures Valid() && trace.original == code == old(code) && trace.total == 0
      ensures callbacks == old(callbacks) && block == old(block)
      ensures Begun(trace, request) && request == Write(if code.initialize then Clocks else Start(code))
    {
      hide Progress, Sized, Chosen, Phase, Grows;
      EntryOfCommand(retries, code);
      transfer := Transfer(transfer.data, false, 0, 0, StatusBusy);
      commandStatus := StatusBusy;
      trace := FreshTrace(code, 0, transfer.data);
      FreshTransfer(Stage(0, 0, Stopped, false), block, code, transfer, pool, 0, crc);
      if code.initialize {
        state := Init;
        request := Write(Clocks);
      } else {
        SendCommandEnter();
        FirstGrowth(code, 0, transfer.data, trace, request);
      }
    }

    /** `sdioRead`. */
    method ReadBlocks(memory: seq<byte>, ghost total: nat, length: nat)
      requires Ready() && Reads(code) && 0 < total && length == total * block <= |memory|
      requires code.checkCrc ==> total <= |pool|
      modifies this
      ensures Valid() && trace.original == code == old(code) && trace.total == total
      ensures transfer.data == memory && callbacks == old(callbacks) && block == old(block)
      ensures transfer.length == length && trace.content == memory
      ensures Begun(trace, request) && request == Write(Start(code))
    {
      hide Progress, Sized, Grows;
      commandStatus := StatusBusy;
      transfer := Transfer(memory, true, length, length, StatusBusy);
      trace := FreshTrace(code, total, memory);
      FreshTransfer(Stage(0, 0, Whole, false), block, code, transfer, pool, total, crc);
      SendCommandEnter();
      FirstGrowth(code, total, memory, trace, request);
    }

    lemma EntryOfWrite(retries: nat, total: nat, code: Command)
      requires Writes(code) && 0 < total
      ensures Chosen(SendCmd, retries, total, total, code, true)
      ensures code.checkCrc ==> Phase(ComputeCrc, retries, total, total, code, true)
    {
    }

    /** `sdioWrite`. */
    method WriteBlocks(memory: seq<byte>, ghost total: nat, length: nat)
      requires Ready() && Writes(code) && 0 < total && length == total * block <= |memory|
      requires code.checkCrc ==> total <= |pool|
      modifies this
      ensures Valid() && trace.original == code == old(code) && trace.total == total && trace.content == memory
      ensures callbacks == old(callbacks) && block == old(block)
      ensures Begun(trace, request) && request == if code.checkCrc then Work else Write(Start(code))
    {
      hide Progress, Sized, Chosen, Phase, Grows;
      EntryOfWrite(retries, total, code);
      commandStatus := StatusBusy;
      transfer := Transfer(memory, true, length, length, StatusBusy);
      trace := FreshTrace(code, total, memory);
      if code.checkCrc {
        FreshTransfer(Stage(0, 0, Uncomputed, false), block, code, transfer, pool, total, crc);
        state := ComputeCrc;
        request := Work;
      } else {
        FreshTransfer(Stage(0, 0, Whole, false), block, code, transfer, pool, total, crc);
        SendCommandEnter();
        FirstGrowth(code, total, memory, trace, request);
      }
    }

    /** The operation goes on, or it has just ended with one callback. */
    ghost predicate Running(before: nat)
      reads this
    {
      if state == Idle then Finished() && callbacks == before + 1 else Valid() && callbacks == before
    }

    /** Bound on the number of events that are still to come. */
    ghost function Events(): nat
      reads this
    {
      if state == Idle then 0 else Left() + 1
    }

    static method AnyBytes(count: nat) returns (input: seq<byte>)
      ensures |input| == count
    {
      input := [];
      while |input| < count
        invariant |input| <= count
      {
        var value: byte := *;
        input := input + [value];
      }
    }

    /** One event with any answer of the card. */
    method Step(ghost before: nat) returns (ghost event: Exchange)
      requires Running(before) && state != Idle
      modifies this
      ensures Running(before) && Events() < old(Events()) && block == old(block)
      ensures event.asked == old(request) && event.next == request
      ensures |event.input| == Requested(event.asked, block)
      ensures Grows(old(trace), trace, BytesOf(event.asked, event.input), ChecksumOf(event.asked, event.input), event.next)
      ensures state == old(Successor(if event.input == [] then 0 else event.input[0]))
      ensures state == Idle ==> request == Nothing
    {
      hide Finished, Grows, BytesOf, ChecksumOf, Successor;
      assert Valid();
      hide Valid, Left;
      var input := AnyBytes(Requested(request, block));
      event := Exchange(request, input, Nothing);
      Complete(input);
      event := event.(next := request);
    }

    /**
     * Runs the operation in progress against any card; it ends after a bounded number of
     * events. The log holds what the card has answered and what it was sent.
     */
    method Run() returns (events: nat, ghost log: seq<Exchange>)
      requires Valid()
      modifies this
      ensures Finished() && callbacks == old(callbacks) + 1
      ensures block == old(block) && events == |log| <= old(Left()) + 1
      ensures Connected(log, old(request), Nothing, block) && Follows(old(trace), trace, log)
    {
      hide Connected, Follows;
      assert state != Idle;
      assert Running(callbacks) && Events() == Left() + 1;
      events, log := Loop();
      assert Running(old(callbacks)) && state == Idle;
    }

    method Loop() returns (events: nat, ghost log: seq<Exchange>)
      requires Running(callbacks) && state != Idle
      modifies this
      ensures Running(old(callbacks)) && state == Idle && block == old(block)
      ensures events == |log| <= old(Events())
      ensures Connected(log, old(request), Nothing, block) && Follows(old(trace), trace, log)
    {
      hide Running, Events, Connected, Follows, Grows, Successor, BytesOf, ChecksumOf, Requested;
      events, log := 0, [];
      NothingYet(trace, request, block);
      while state != Idle
        invariant Running(old(callbacks)) && block == old(block)
        invariant events == |log| && events + Events() <= old(Events())
        invariant Connected(log, old(request), request, block) && Follows(old(trace), trace, log)
        invariant state == Idle ==> request == Nothing
        decreases Events()
      {
        ghost var before := trace;
        ghost var event := Step(old(callbacks));
        ConnectedExtends(log, old(request), event.asked, block, event.input, event.next);
        FollowsFurther(old(trace), before, trace, log, event);
        log := log + [event];
        events := events + 1;
      }
    }

    /**
     * An idle interface is never busy. The stop command follows the command of the caller
     * exactly when an automatic stop was asked for and all blocks have been read.
     */
    lemma StatusIsFinal()
      requires Finished()
      ensures GetStatus() != E_BUSY
      ensures trace.commands
           == if Reads(trace.original) && trace.original.autoStop && trace.blocks == 0 && |trace.checks| == trace.total
              then [trace.original, STOP_TRANSMISSION] else [trace.original]
    {
    }

    /**
     * A read that got all its blocks has stored every one at its offset, and the verdict of
     * the checksums is the final status even after an injected stop command.
     */
    lemma ReadResult()
      requires Finished() && Reads(trace.original) && trace.blocks == 0 && |trace.checks| == trace.total
      ensures |trace.received| == trace.total * block == transfer.length <= |transfer.data|
      ensures transfer.data[..transfer.length] == trace.received
      ensures |transfer.data| == |trace.content| && transfer.data[transfer.length..] == trace.content[transfer.length..]
      ensures trace.original.checkCrc ==>
                (GetStatus() == E_INTERFACE <==> !Intact(trace.received, block, trace.checks, crc))
                && (GetStatus() == E_OK <==> Intact(trace.received, block, trace.checks, crc))
    {
    }

    /** A read reports success only when all blocks have arrived. */
    lemma ReadSucceedsComplete()
      requires Finished() && Reads(trace.original) && GetStatus() == E_OK
      ensures trace.blocks == 0 && |trace.checks| == trace.total == trace.arrived
      ensures transfer.data[..transfer.length] == trace.received
    {
    }

    /** A write that succeeded has sent every block in order, and the stop token after more than one. */
    lemma WriteResult()
      requires Finished() && Writes(trace.original) && GetStatus() == E_OK
      ensures trace.total * block <= |trace.content|
      ensures trace.wire
           == Frames(trace.content, block, trace.total, crc, trace.original.checkCrc, 1 < trace.total)
              + (if 1 < trace.total then [Token(TOKEN_STOP)] else [])
    {
    }

    /**
     * A read from its start to its end, for any answers of the card. When every block has
     * come with its checksum, the memory holds the bytes of the answers and nothing else has
     * changed, and with verification the status is the checksum error exactly when a
     * checksum of the answers differs from that of its block.
     */
    method ReadToEnd(memory: seq<byte>, ghost total: nat, length: nat) returns (ghost log: seq<Exchange>)
      requires Ready() && Reads(code) && 0 < total && length == total * block <= |memory|
      requires code.checkCrc ==> total <= |pool|
      modifies this
      ensures Ready() && callbacks == old(callbacks) + 1 && block == old(block) && GetStatus() != E_BUSY
      ensures Connected(log, Write(Start(old(code))), Nothing, block)
      ensures GetStatus() == E_OK ==> |ChecksumsIn(log)| == total
      ensures |ChecksumsIn(log)| == total ==> transfer.data == BytesIn(log) + memory[length..] && |BytesIn(log)| == length
      ensures |ChecksumsIn(log)| == total && old(code).checkCrc ==>
                && (GetStatus() == E_INTERFACE <==> !Intact(BytesIn(log), block, ChecksumsIn(log), crc))
                && (GetStatus() == E_OK <==> Intact(BytesIn(log), block, ChecksumsIn(log), crc))
      ensures [old(code)] + CommandsIn(log) ==
              if old(code).autoStop && |ChecksumsIn(log)| == total then [old(code), STOP_TRANSMISSION] else [old(code)]
    {
      hide Ready, Valid, Finished, Connected, Progress, Sized, Intact, Outcome, Begun, Follows, StopIsSent;
      hide BytesIn, ChecksumsIn, CommandsIn, Interface.GetStatus;
      ReadBlocks(memory, total, length);
      ghost var begun := trace;
      var events;
      events, log := Run();
      JustAnswered(begun, trace, Write(Start(old(code))), log);
      ReadIsOver(total, length);
    }

    lemma ReadIsOver(total: nat, length: nat)
      requires Finished() && Reads(trace.original) && trace.total == total && length == total * block <= |trace.content|
      ensures Ready() && GetStatus() != E_BUSY
      ensures GetStatus() == E_OK ==> |trace.checks| == total
      ensures |trace.checks| == total ==>
                transfer.data == trace.received + trace.content[length..] && |trace.received| == length
      ensures |trace.checks| == total && trace.original.checkCrc ==>
                && (GetStatus() == E_INTERFACE <==> !Intact(trace.received, block, trace.checks, crc))
                && (GetStatus() == E_OK <==> Intact(trace.received, block, trace.checks, crc))
      ensures trace.commands ==
              if trace.original.autoStop && |trace.checks| == total then [trace.original, STOP_TRANSMISSION]
              else [trace.original]
    {
      hide Progress, Sized, Intact;
      OperationIsOver();
      StatusIsFinal();
      if |trace.checks| == total {
        AllChecked();
        ReadResult();
        assert transfer.data == transfer.data[..length] + transfer.data[length..];
      }
      if GetStatus() == E_OK {
        ReadSucceedsComplete();
      }
    }

    lemma AllChecked()
      requires Finished() && Reads(trace.original) && |trace.checks| == trace.total
      ensures trace.blocks == 0
    {
    }

    /**
     * A write from its start to its end: it succeeds only if the frames of all blocks were
     * sent in order, with the stop token after more than one.
     */
    method WriteToEnd(memory: seq<byte>, ghost total: nat, length: nat) returns (ghost log: seq<Exchange>)
      requires Ready() && Writes(code) && 0 < total && length == total * block <= |memory|
      requires code.checkCrc ==> total <= |pool|
      modifies this
      ensures Ready() && callbacks == old(callbacks) + 1 && block == old(block) && GetStatus() != E_BUSY
      ensures Connected(log, if old(code).checkCrc then Work else Write(Start(old(code))), Nothing, block)
      ensures GetStatus() == E_OK ==>
                FramesIn(log) == Frames(memory, block, total, crc, old(code).checkCrc, 1 < total)
                                 + (if 1 < total then [Token(TOKEN_STOP)] else [])
      ensures (if old(code).checkCrc then [] else [old(code)]) + CommandsIn(log) == [old(code)]
    {
      hide Ready, Valid, Finished, Connected, Progress, Sized, Intact, Outcome, Frames, Begun, Follows, StopIsSent;
      hide FramesIn, CommandsIn, Interface.GetStatus;
      WriteBlocks(memory, total, length);
      ghost var first, begun := request, trace;
      var events;
      events, log := Run();
      JustAnswered(begun, trace, first, log);
      StatusIsFinal();
      OperationIsOver();
      if GetStatus() == E_OK {
        WriteResult();
      }
    }

    lemma OperationIsOver()
      requires Finished()
      ensures Ready()
    {
    }
  }
}