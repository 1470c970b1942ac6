/**
 * Command state machine of usb/msc.c: every accepted command block is answered by one
 * status block with its tag before the next one is awaited.
 *
 * The data path and the host are the environment: each of its operations may be refused,
 * and the status of a finished operation is arbitrary. Fields of a command block arrive
 * decoded.
 */
module MscDispatch {
  import opened Common

  datatype State =
    | Idle | TestUnitReady | RequestSense | Inquiry | ModeSense
    | MediumRemoval | ReadFormatCapacities | ReadCapacity | ReadSetup
    | Read | WriteSetup | Write | Verify | Ack | AckStall
    | Completed | Failure | Error | Suspend

  datatype Command =
    | TestUnitReady | RequestSense | Inquiry | ModeSense(ten: bool) | MediumRemoval(lock: bool)
    | ReadFormatCapacities | ReadCapacity(pmi: bool, lba: u32) | Read(lba: u32, count: u32)
    | Write(lba: u32, count: u32) | Verify(byteCheck: bool, lba: u32, count: u32) | Unsupported

  /** Command block: signature, length of the command, and the fields copied to the context. */
  datatype Cbw = Cbw(signed: bool, cbLength: nat, tag: u32, length: u32, toHost: bool, lun: nat, command: Command)

  datatype Status = Passed | Failed | PhaseError

  /** Status block. */
  datatype Csw = Csw(tag: u32, status: Status)

  datatype Sense =
    | NoSense | NotReady | MediumError | IllegalRequest | UnitAttention

  datatype Lun = Lun(present: bool, blocks: u32, attention: bool, locked: bool, failure: bool, sense: Sense)

  /** States in which the driver waits for the data path or for a reset. */
  predicate Resting(state: State) {
    match state
    case Idle => true
    case Read => true
    case Write => true
    case Ack => true
    case AckStall => true
    case Completed => true
    case Failure => true
    case Error => true
    case Suspend => true
    case _ => false
  }

  /** An entry leads to a lower rank or stays. */
  function Rank(state: State): nat {
    match state
    case Suspend => 0
    case Idle => 1
    case Ack => 1
    case AckStall => 1
    case Completed => 1
    case Failure => 1
    case Error => 1
    case Read => 2
    case Write => 2
    case _ => 3
  }

  /** The state that serves a command of a known unit. */
  function Served(command: Command): State {
    match command
    case TestUnitReady => State.TestUnitReady
    case RequestSense => State.RequestSense
    case Inquiry => State.Inquiry
    case ModeSense(_) => State.ModeSense
    case MediumRemoval(_) => State.MediumRemoval
    case ReadFormatCapacities => State.ReadFormatCapacities
    case ReadCapacity(_, _) => State.ReadCapacity
    case Read(_, _) => ReadSetup
    case Write(_, _) => WriteSetup
    case Verify(_, _, _) => State.Verify
    case Unsupported => Failure
  }

  /** The check of a block range in 32-bit arithmetic. */
  predicate RangeAccepted(lba: u32, count: u32, blocks: u32) {
    (lba + count) % TWO_32 <= blocks
  }

  /** An accepted range lies on the medium exactly when the sum did not wrap around. */
  lemma AcceptedRange(lba: u32, count: u32, blocks: u32)
    requires RangeAccepted(lba, count, blocks)
    ensures lba + count <= blocks <==> lba + count < TWO_32
  {
  }

  /** Response sizes in bytes. */
  const REQUEST_SENSE_SIZE: nat := 18
  const INQUIRY_SIZE: nat := 36
  const MODE_SENSE_6_SIZE: nat := 4
  const MODE_SENSE_10_SIZE: nat := 8
  const READ_FORMAT_CAPACITIES_SIZE: nat := 12
  const READ_CAPACITY_SIZE: nat := 8

  function TagsOf(csws: seq<Csw>): seq<u32> {
    seq(|csws|, i requires 0 <= i < |csws| => csws[i].tag)
  }

  class Msc {
    const blockSize: u32
    // The data path accepts every request
    const reliable: bool

    var state: State
    var luns: seq<Lun>
    // Context of the command in progress
    var cbw: Cbw
    var left: u32
    var position: nat

    // Receptions that were started, status blocks that were issued, tags of accepted commands
    var receives: nat
    var csws: seq<Csw>
    ghost var accepted: seq<u32>

    /** `driverInit`: no unit is attached, and the driver waits for a reset. */
    constructor (blockSize: u32, units: nat, reliable: bool)
      requires 0 < blockSize
      ensures Valid() && state == Suspend && this.blockSize == blockSize && this.reliable == reliable && |luns| == units
    {
      this.blockSize, this.reliable := blockSize, reliable;
      state, receives, csws, accepted := Suspend, 0, [], [];
      luns := seq(units, _ => Lun(false, 0, false, false, false, NoSense));
      cbw, left, position := Cbw(false, 0, 0, 0, false, 0, Unsupported), 0, 0;
    }

    /** `resetBuffers` after a reset of the bus: earlier commands are forgotten. */
    method Reset()
      requires Valid()
      modifies this`state, this`receives, this`csws, this`accepted
      ensures Valid() && csws == [] && accepted == []
      ensures receives == old(receives) + (if state == Idle then 1 else 0)
      ensures state == Idle || state == Suspend
      ensures reliable ==> state == Idle
    {
      csws, accepted := [], [];
      var ok: bool := *;
      if ok || reliable {
        receives := receives + 1;
        state := Idle;
      } else {
        state := Suspend;
      }
    }

    ghost function Tags(): seq<u32>
      reads this`csws
    {
      TagsOf(csws)
    }

    /** No status block has been issued for the accepted command. */
    ghost predicate Owing()
      reads this`csws, this`cbw, this`accepted
    {
      accepted == Tags() + [cbw.tag]
    }

    /** Every accepted command has got its status block, in order. */
    ghost predicate Answered()
      reads this`csws, this`accepted
    {
      accepted == Tags()
    }

    ghost predicate Answering(state: State)
      reads this`csws, this`cbw, this`accepted
    {
      match state
      case Idle => Answered()
      case Ack => Answered() && csws != [] && csws[|csws| - 1] == Csw(cbw.tag, Passed)
      case Completed => Answered() && csws != [] && csws[|csws| - 1] == Csw(cbw.tag, Passed)
      case Failure => Answered() && csws != [] && csws[|csws| - 1] == Csw(cbw.tag, Failed)
      case Read => Owing()
      case Write => Owing()
      case AckStall => Owing()
      case Error =>
        && csws != [] && csws[|csws| - 1] == Csw(cbw.tag, PhaseError)
        && (Answered() || Tags() == accepted + [cbw.tag])
      case Suspend => true
      case _ => Owing()
    }

    /** A failed command of a known unit leaves a sense code. */
    ghost predicate Explained(state: State)
      reads this`luns, this`cbw
    {
      state == Failure && cbw.lun < |luns| ==> luns[cbw.lun].sense != NoSense
    }

    /** A state that has been entered and waits. */
    ghost predicate Entered(state: State)
      reads this`csws, this`cbw, this`accepted, this`luns
    {
      && 0 < blockSize && Resting(state) && Answering(state) && Explained(state)
      && (state == State.Read || state == State.Write ==> cbw.lun < |luns|)
    }

    ghost predicate Valid()
      reads this
    {
      Entered(state)
    }

    /** Whenever the next command is awaited, all commands have been answered in order, each once. */
    lemma IdleIsAnswered()
      requires Valid() && state == Idle
      ensures |csws| == |accepted| && forall i | 0 <= i < |csws| :: csws[i].tag == accepted[i]
    {
    }

    /** The entry of a command state is for the command of the block. */
    ghost predicate Matches(next: State)
      reads this
    {
      && (Rank(next) >= 2 ==> cbw.lun < |luns| && left == cbw.length)
      && match next
         case ModeSense => cbw.command.ModeSense?
         case MediumRemoval => cbw.command.MediumRemoval?
         case ReadCapacity => cbw.command.ReadCapacity?
         case ReadSetup => cbw.command.Read?
         case WriteSetup => cbw.command.Write?
         case Verify => cbw.command.Verify?
         case _ => true
    }

    /** A state has been chosen, and its entry is to come. */
    ghost predicate Chosen(next: State)
      reads this
    {
      && 0 < blockSize && Explained(next) && Matches(next)
      && (match next
          case Idle => Answered()
          case Completed => Answering(Completed)
          case Error => Owing() || Answered()
          case Suspend => true
          case _ => Owing())
    }

    /** `datapathSendStatus`; the data path may refuse. */
    method SendStatus(status: Status) returns (ok: bool)
      modifies this`csws
      ensures csws == old(csws) + (if ok then [Csw(cbw.tag, status)] else [])
      ensures reliable ==> ok
    {
      var accepted: bool := *;
      ok := accepted || reliable;
      if ok {
        csws := csws + [Csw(cbw.tag, status)];
      }
    }

    method SetSense(sense: Sense)
      requires cbw.lun < |luns|
      modifies this`luns
      ensures luns == old(luns)[cbw.lun := old(luns)[cbw.lun].(sense := sense)]
    {
      luns := luns[cbw.lun := luns[cbw.lun].(sense := sense)];
    }

    /** `sendResponse`: data and status together, or data alone with a stall to follow. */
    method SendResponse(length: nat) returns (next: State)
      requires Owing() && 0 < blockSize
      modifies this`csws
      ensures Chosen(next) && Rank(next) < 2 && next in {Completed, AckStall, Suspend}
      ensures next == Completed ==> length <= cbw.length
      ensures next == AckStall ==> cbw.length < length
      ensures reliable ==> next != Suspend
    {
      var dataLength := Min(length, cbw.length);
      var dataFit := dataLength == length;
      if dataFit {
        var ok := SendStatus(Passed);
        return if ok then Completed else Suspend;
      } else {
        var ok: bool := *;
        return if ok || reliable then AckStall else Suspend;
      }
    }

    predicate IsInputDataValid()
      reads this
    {
      cbw.length != 0 && cbw.toHost
    }

    method IdleEnter() returns (next: State)
      requires Chosen(Idle)
      modifies this`receives
      ensures Chosen(next) && (next == Idle || next == Suspend)
      ensures receives == old(receives) + (if next == Idle then 1 else 0)
      ensures reliable ==> next != Suspend
    {
      var ok: bool := *;
      if ok || reliable {
        receives := receives + 1;
        return Idle;
      } else {
        return Suspend;
      }
    }

    /** `stateIdleRun` on the received command block. */
    method IdleRun(input: Cbw) returns (next: State)
      requires Valid() && state == Idle
      modifies this`cbw, this`left, this`luns, this`accepted
      ensures Chosen(next)
      ensures !input.signed ==> next == Idle && cbw == old(cbw) && accepted == old(accepted)
      ensures input.signed && (input.cbLength == 0 || 16 < input.cbLength) ==>
                next == Error && cbw == old(cbw) && accepted == old(accepted)
      ensures input.signed && 0 < input.cbLength <= 16 ==>
                next != Idle && cbw == input && accepted == old(accepted) + [input.tag]
      ensures next != Suspend
      ensures input.signed && 0 < input.cbLength <= 16 ==>
                next == if input.lun < |luns| then Served(input.command) else Failure
    {
      if !input.signed {
        return Idle;
      }
      if input.cbLength == 0 || 16 < input.cbLength {
        return Error;
      }
      cbw := input;
      left := input.length;
      accepted := accepted + [input.tag];

      if |luns| <= cbw.lun {
        return Failure;
      }
      match cbw.command
      case TestUnitReady => return State.TestUnitReady;
      case RequestSense => return State.RequestSense;
      case Inquiry => return State.Inquiry;
      case ModeSense(_) => return State.ModeSense;
      case MediumRemoval(_) => return State.MediumRemoval;
      case ReadFormatCapacities => return State.ReadFormatCapacities;
      case ReadCapacity(_, _) => return State.ReadCapacity;
      case Read(_, _) => return ReadSetup;
      case Write(_, _) => return WriteSetup;
      case Verify(_, _, _) => return State.Verify;
      case Unsupported =>
        SetSense(IllegalRequest);
        return Failure;
    }

    method TestUnitReadyEnter() returns (next: State)
      requires Chosen(State.TestUnitReady)
      modifies this`luns
      ensures Chosen(next) && |luns| == |old(luns)|
      ensures next == if cbw.length != 0 then Error
                      else if !old(luns)[cbw.lun].present || old(luns)[cbw.lun].attention then Failure
                      else Ack
      // Attention is reported once
      ensures next != Error ==>
                var lun := old(luns)[cbw.lun];
                luns == old(luns)[cbw.lun :=
                  if !lun.present then lun.(sense := NotReady)
                  else if lun.attention then lun.(attention := false, sense := UnitAttention)
                  else lun]
      ensures next == Error ==> luns == old(luns)
    {
      if cbw.length != 0 {
        return Error;
      }
      var index := cbw.lun;
      if !luns[index].present {
        SetSense(NotReady);
        return Failure;
      } else if luns[index].attention {
        luns := luns[index := luns[index].(attention := false)];
        SetSense(UnitAttention);
        return Failure;
      } else {
        return Ack;
      }
    }

    /** `stateRequestSenseEnter`: the sense code is reported once. */
    method RequestSenseEnter() returns (next: State, reported: Option<Sense>)
      requires Chosen(State.RequestSense)
      modifies this`luns, this`csws
      ensures Chosen(next) && Rank(next) < 2 && |luns| == |old(luns)|
      ensures next != Idle && (next == Error <==> !IsInputDataValid())
      ensures reported == if next == Error then None else Some(old(luns)[cbw.lun].sense)
      ensures reported.Some? ==> luns == old(luns)[cbw.lun := old(luns)[cbw.lun].(sense := NoSense)]
      ensures reliable ==> next != Suspend
    {
      reported := None;
      if !IsInputDataValid() {
        return Error, None;
      }
      reported := Some(luns[cbw.lun].sense);
      SetSense(NoSense);
      next := SendResponse(REQUEST_SENSE_SIZE);
    }

    /** `stateInquiryEnter` and `stateModeSenseEnter`. */
    method InformationEnter(length: nat) returns (next: State)
      requires (Chosen(State.Inquiry) || Chosen(State.ModeSense)) && 0 < length
      modifies this`csws
      ensures Chosen(next) && Rank(next) < 2
      ensures next == Error <==> !IsInputDataValid()
      ensures next != Idle
      ensures reliable ==> next != Suspend
    {
      if !IsInputDataValid() {
        return Error;
      }
      next := SendResponse(length);
    }

    method MediumRemovalEnter() returns (next: State)
      requires Chosen(State.MediumRemoval)
      modifies this`luns
      ensures Chosen(next) && |luns| == |old(luns)|
      ensures next == if old(luns)[cbw.lun].present then Ack else Failure
      ensures next == Ack ==> luns[cbw.lun].locked == cbw.command.lock
    {
      var index := cbw.lun;
      if luns[index].present {
        luns := luns[index := luns[index].(locked := cbw.command.lock)];
        return Ack;
      } else {
        SetSense(NotReady);
        return Failure;
      }
    }

    method ReadFormatCapacitiesEnter() returns (next: State)
      requires Chosen(State.ReadFormatCapacities)
      modifies this`luns, this`csws
      ensures Chosen(next) && Rank(next) < 2 && next != Idle && |luns| == |old(luns)|
      ensures reliable ==> next != Suspend
      ensures (next == Error <==> !IsInputDataValid())
      ensures (next == Failure <==> IsInputDataValid() && !old(luns)[cbw.lun].present)
    {
      if !IsInputDataValid() {
        return Error;
      }
      if luns[cbw.lun].present {
        next := SendResponse(READ_FORMAT_CAPACITIES_SIZE);
      } else {
        SetSense(NotReady);
        return Failure;
      }
    }

    method ReadCapacityEnter() returns (next: State)
      requires Chosen(State.ReadCapacity)
      modifies this`luns, this`csws
      ensures Chosen(next) && Rank(next) < 2 && next != Idle && |luns| == |old(luns)|
      ensures reliable ==> next != Suspend
      ensures (next == Error <==> !IsInputDataValid())
      ensures (next == Failure <==>
                 IsInputDataValid()
                 && (!old(luns)[cbw.lun].present || (!cbw.command.pmi && cbw.command.lba != 0)
                     || (old(luns)[cbw.lun].blocks - 1) % TWO_32 < cbw.command.lba))
    {
      if !IsInputDataValid() {
        return Error;
      }
      var index, lba := cbw.lun, cbw.command.lba;
      if (!cbw.command.pmi && lba != 0) || (luns[index].blocks - 1) % TWO_32 < lba {
        SetSense(IllegalRequest);
        return Failure;
      }
      if luns[index].present {
        next := SendResponse(READ_CAPACITY_SIZE);
      } else {
        SetSense(NotReady);
        return Failure;
      }
    }

    /** `stateReadSetupEnter` and `stateWriteSetupEnter`: the range of a transfer. */
    method SetupEnter(lba: u32, count: u32, transfer: State) returns (next: State)
      requires (Chosen(ReadSetup) || Chosen(WriteSetup)) && (transfer == State.Read || transfer == State.Write)
      modifies this`luns, this`position
      ensures Chosen(next) && |luns| == |old(luns)| && (next == transfer || next == Failure)
      ensures next == transfer <==>
                && old(luns)[cbw.lun].present && 0 < cbw.length == count * blockSize % TWO_32
                && RangeAccepted(lba, count, old(luns)[cbw.lun].blocks)
      ensures next == transfer ==> position == lba * blockSize && luns == old(luns)
      ensures next == transfer && lba + count < TWO_32 && count * blockSize < TWO_32 ==>
                position + left <= luns[cbw.lun].blocks * blockSize
    {
      var index := cbw.lun;
      if !luns[index].present {
        SetSense(NotReady);
        return Failure;
      }
      var transferLength := count * blockSize % TWO_32;
      if cbw.length != transferLength || transferLength == 0 {
        SetSense(IllegalRequest);
        return Failure;
      }
      if !RangeAccepted(lba, count, luns[index].blocks) {
        SetSense(IllegalRequest);
        return Failure;
      }
      position := lba * blockSize;
      RangeInside(lba, count, luns[index].blocks, blockSize);
      return transfer;
    }

    static lemma RangeInside(lba: u32, count: u32, blocks: u32, blockSize: u32)
      requires RangeAccepted(lba, count, blocks)
      ensures 0 <= lba * blockSize
      ensures lba + count < TWO_32 && count * blockSize < TWO_32 ==>
                lba * blockSize + count * blockSize % TWO_32 <= blocks * blockSize
    {
      MulMonotone(0, lba, blockSize);
      MulMonotone(0, count, blockSize);
      if lba + count < TWO_32 {
        MulMonotone(lba + count, blocks, blockSize);
        assert (lba + count) * blockSize == lba * blockSize + count * blockSize;
      }
    }

    /** `stateReadEnter` and `stateWriteEnter`: the data path starts or refuses. */
    method TransferEnter(transfer: State) returns (next: State)
      requires Chosen(transfer) && (transfer == State.Read || transfer == State.Write)
      modifies this`luns
      ensures Chosen(next) && |luns| == |old(luns)| && (next == transfer || next == Failure)
      ensures reliable ==> next == transfer
    {
      var queued: bool := *;
      if !queued && !reliable {
        SetSense(MediumError);
        luns := luns[cbw.lun := luns[cbw.lun].(failure := true)];
        return Failure;
      }
      return transfer;
    }

    method VerifyEnter() returns (next: State)
      requires Chosen(State.Verify)
      modifies this`luns
      ensures Chosen(next) && |luns| == |old(luns)|
      ensures next == Ack <==>
                && old(luns)[cbw.lun].present && !cbw.command.byteCheck
                && RangeAccepted(cbw.command.lba, cbw.command.count, old(luns)[cbw.lun].blocks)
      ensures next == Ack || next == Failure || next == Error
    {
      var index := cbw.lun;
      if !luns[index].present {
        SetSense(NotReady);
        return Failure;
      }
      if !cbw.command.byteCheck {
        if !RangeAccepted(cbw.command.lba, cbw.command.count, luns[index].blocks) {
          SetSense(IllegalRequest);
          return Failure;
        } else {
          return Ack;
        }
      } else {
        return Error;
      }
    }

    /** `stateAckEnter`, `stateFailureEnter` and `stateErrorEnter`: the status block. */
    method StatusEnter(entered: State) returns (next: State)
      requires Chosen(entered) && (entered == Ack || entered == Failure || entered == Error)
      modifies this`csws
      ensures next == entered || next == Suspend
      ensures next == entered ==> Entered(entered)
      ensures next == Suspend ==> Chosen(next)
      ensures reliable ==> next != Suspend
    {
      ghost var before := Tags();
      var status := if entered == Ack then Passed else if entered == Failure then Failed else PhaseError;
      var ok := SendStatus(status);
      if ok {
        assert Tags() == before + [cbw.tag];
        next := entered;
      } else {
        next := Suspend;
      }
    }

    /** The entries of the command states, all of which lead on. */
    method CommandEnter(current: State) returns (next: State)
      requires Chosen(current) && Rank(current) == 3
      modifies this`luns, this`csws, this`position
      ensures Chosen(next) && Rank(next) < 3 && next != Idle
      ensures reliable ==> next != Suspend
    {
      hide Owing, Answered, Explained, Answering;
      match current {
        case TestUnitReady => next := TestUnitReadyEnter();
        case RequestSense =>
          var reported;
          next, reported := RequestSenseEnter();
        case Inquiry => next := InformationEnter(INQUIRY_SIZE);
        case ModeSense =>
          next := InformationEnter(if cbw.command.ten then MODE_SENSE_10_SIZE else MODE_SENSE_6_SIZE);
        case MediumRemoval => next := MediumRemovalEnter();
        case ReadFormatCapacities => next := ReadFormatCapacitiesEnter();
        case ReadCapacity => next := ReadCapacityEnter();
        case ReadSetup => next := SetupEnter(cbw.command.lba, cbw.command.count, State.Read);
        case WriteSetup => next := SetupEnter(cbw.command.lba, cbw.command.count, State.Write);
        case Verify => next := VerifyEnter();
      }
    }

    /** The enter functions of the state table. */
    method Enter(current: State) returns (next: State)
      requires Chosen(current)
      modifies this`luns, this`csws, this`position, this`receives
      ensures next == current ==> Entered(current)
      ensures next != current ==> Chosen(next) && Rank(next) < Rank(current) && next != Idle
      ensures current == Error ==> next == Error || next == Suspend
      ensures receives == old(receives) + (if next == current == Idle then 1 else 0)
      ensures reliable && current != Suspend ==> next != Suspend
    {
      next := current;
      if current == Idle {
        next := IdleEnter();
      } else if Rank(current) == 3 {
        next := CommandEnter(current);
      } else if current == State.Read || current == State.Write {
        next := TransferEnter(current);
      } else if current == Ack || current == Failure || current == Error {
        next := StatusEnter(current);
      }
    }

    /** `stateReadWriteRun`. */
    method ReadWriteRun(status: Result) returns (next: State)
      requires Valid() && (state == State.Read || state == State.Write)
      modifies this`luns
      ensures Chosen(next) && |luns| == |old(luns)|
      ensures next == if status == E_OK then Ack else if status == E_ERROR then Suspend else Failure
      ensures luns == if next != Failure then old(luns) else
                old(luns)[cbw.lun := old(luns)[cbw.lun].(sense := MediumError, failure := true)]
    {
      match status
      case E_OK =>
        next := Ack;
      case E_ERROR =>
        next := Suspend;
      case _ =>
        luns := luns[cbw.lun := luns[cbw.lun].(sense := MediumError, failure := true)];
        next := Failure;
    }

    /** `stateAckStallRun`: the status block follows a short response. */
    method AckStallRun() returns (next: State)
      requires Valid() && state == AckStall
      modifies this`csws
      ensures Chosen(next) && (next == Completed || next == Suspend)
    {
      var sent: bool := *;
      if !sent {
        return Suspend;
      }
      ghost var before := Tags();
      var ok := SendStatus(Passed);
      if ok {
        assert Tags() == before + [cbw.tag];
        return Completed;
      }
      return Suspend;
    }

    /** The run functions of the state table; `input` is the block in the buffer. */
    method Run(input: Cbw) returns (next: State)
      requires Valid()
      modifies this`cbw, this`left, this`luns, this`accepted, this`csws
      ensures if next == old(state) then Valid() && csws == old(csws) else Chosen(next)
      ensures state != Idle ==> cbw == old(cbw) && accepted == old(accepted)
      ensures state == Idle && !input.signed ==>
                next == Idle && cbw == old(cbw) && accepted == old(accepted) && csws == old(csws)
      ensures state == Idle && input.signed && (input.cbLength == 0 || 16 < input.cbLength) ==>
                next == Error && cbw == old(cbw) && accepted == old(accepted)
      ensures state == Idle && input.signed && 0 < input.cbLength <= 16 ==>
                next != Idle && cbw == input && accepted == old(accepted) + [input.tag]
      ensures state == Idle ==> next != Suspend
    {
      next := state;
      var status: Result := *;
      match state {
        case Idle => next := IdleRun(input);
        case Read => next := ReadWriteRun(status);
        case Write => next := ReadWriteRun(status);
        case AckStall => next := AckStallRun();
        case Error => next := Suspend;
        case Suspend =>
        case _ =>
          var sent: bool := *;
          next := if sent then Idle else Suspend;
      }
    }

    /**
     * `dispatch`: runs until the driver has to wait. A block without signature is ignored
     * without a new reception; a return to the idle state starts exactly one.
     */
    method Dispatch(input: Cbw)
      requires Valid()
      modifies this
      ensures Valid()
      ensures receives == old(receives) + (if state == Idle && old(state) != Idle then 1 else 0)
      ensures old(state) == Idle && !input.signed ==>
                state == Idle && csws == old(csws) && accepted == old(accepted)
      ensures old(state) == Idle && input.signed && 0 < input.cbLength <= 16 ==>
                state != Idle && cbw == input && accepted == old(accepted) + [input.tag]
      ensures old(state) == Idle && input.signed && (input.cbLength == 0 || 16 < input.cbLength) ==>
                (state == Error || state == Suspend) && cbw == old(cbw) && accepted == old(accepted)
      ensures old(state) != Idle ==> cbw == old(cbw) && accepted == old(accepted)
      ensures reliable && old(state) == Idle ==> state != Suspend
    {
      hide Entered, Chosen;
      var current, previous := state, state;
      current := Run(input);
      var first := current;
      while current != previous
        invariant state == old(state)
        invariant if current == previous then Entered(current) else Chosen(current)
        invariant cbw == (if state == Idle && input.signed && 0 < input.cbLength <= 16 then input else old(cbw))
        invariant accepted == old(accepted)
                    + (if state == Idle && input.signed && 0 < input.cbLength <= 16 then [input.tag] else [])
        invariant receives == old(receives) + (if current == previous == Idle && state != Idle then 1 else 0)
        invariant current == Idle ==> current == first
        invariant reliable && state == Idle ==> current != Suspend
        invariant first == Error ==> current == Error || current == Suspend
        invariant first == old(state) ==> current == first && csws == old(csws)
        decreases if current == previous then 0 else 1 + Rank(current)
      {
        previous := current;
        current := Enter(current);
      }
      state := current;
    }
  }
}
