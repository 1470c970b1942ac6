/**
 * Transfer state machine of generic/mmcsd.c: the commands around a data transfer, the bus
 * lock and the completion event.
 *
 * The SDIO interface and the card are the environment: what they say at each interrupt is
 * an arbitrary argument. A started operation ends with one interrupt.
 */
module MmcSd {
  import opened Common

  datatype State =
    | Idle | GetStatus | SelectCard | Transfer | Stop | Halt | Error

  datatype Mode = Spi | Bus

  /** What the interface has been asked to do: a command, or a command with data. */
  datatype Operation = Execute(index: nat, argument: u32) | Move(command: nat, argument: u32, read: bool, length: nat)

  /**
   * Answers to what the driver may ask at one interrupt: the status of the operation that
   * has ended, the state of the card, the result of a command that is not awaited, and
   * whether the parameters of a transfer and its whole buffer are accepted.
   */
  datatype Answers = Answers(status: Result, card: Result, executed: Result, accepted: Result, queued: bool)

  /** What the caller asks for; the data goes to the host for the two read commands. */
  datatype Task = Task(command: nat, argument: u32, length: nat) {
    function Request(): Operation {
      Move(command, argument, command == CMD17_READ_SINGLE_BLOCK || command == CMD18_READ_MULTIPLE_BLOCK, length)
    }
  }

  const CMD7_SELECT_CARD: nat := 7
  const CMD12_STOP_TRANSMISSION: nat := 12
  const CMD13_SEND_STATUS: nat := 13
  const CMD17_READ_SINGLE_BLOCK: nat := 17
  const CMD18_READ_MULTIPLE_BLOCK: nat := 18

  predicate Terminal(state: State) {
    state == Idle || state == Error
  }

  /** Interrupts that are still to come at most. */
  function Rank(state: State): nat {
    match state
    case GetStatus => 4
    case SelectCard => 3
    case Transfer => 2
    case Stop => 1
    case Halt => 1
    case Idle => 0
    case Error => 0
  }

  /** State of a transfer, and how its data phase and its stop command have ended. */
  datatype Course = Course(state: State, data: Option<bool>, stop: Option<bool>)

  /** The data phase starts, or the transfer has failed. */
  function Launched(answers: Answers): State {
    if answers.accepted == E_OK && answers.queued then Transfer else Error
  }

  /** The state after the state of the card is known. */
  function Prepared(answers: Answers): State {
    if answers.card == E_OK then Launched(answers)
    else if answers.card != E_IDLE then Error
    else Selected(answers)
  }

  /** The state after the card has been asked to leave the standby state. */
  function Selected(answers: Answers): State {
    if answers.executed == E_BUSY then SelectCard
    else if answers.executed == E_OK then Launched(answers)
    else Error
  }

  /** One interrupt. */
  function Next(course: Course, autostop: bool, answers: Answers): (next: Course)
    ensures if Terminal(course.state) then next == course else Rank(next.state) < Rank(course.state)
  {
    match course.state
    case GetStatus => course.(state := Prepared(answers))
    case SelectCard => course.(state := Launched(answers))
    case Transfer =>
      var ok := answers.status == E_OK;
      if ok && !autostop then Course(Idle, Some(true), course.stop)
      else if answers.executed == E_BUSY then Course(if ok then Stop else Halt, Some(ok), course.stop)
      else Course(if answers.executed == E_OK then Idle else Error, Some(ok), Some(answers.executed == E_OK))
    case Stop =>
      var ok := answers.status == E_OK;
      Course(if ok then Idle else Error, course.data, Some(ok))
    case Halt => course.(state := Error)
    case _ => course
  }

  /** The final course; `answers(k)` holds the answers at interrupt `k`. */
  function Last(course: Course, autostop: bool, answers: nat -> Answers, k: nat): Course
    decreases Rank(course.state)
  {
    if Terminal(course.state) then course else Last(Next(course, autostop, answers(k)), autostop, answers, k + 1)
  }

  lemma LastStep(course: Course, autostop: bool, answers: nat -> Answers, k: nat)
    ensures if Terminal(course.state) then Last(course, autostop, answers, k) == course
            else Last(course, autostop, answers, k) == Last(Next(course, autostop, answers(k)), autostop, answers, k + 1)
  {
  }

  /** The state after `transferBuffer` has started the first operation. */
  function First(mode: Mode, answers: Answers): Course {
    Course(
      if mode == Spi then Launched(answers)
      else if answers.executed == E_BUSY then GetStatus
      else if answers.executed == E_OK then Prepared(answers)
      else Error,
      None, None)
  }

  ghost predicate Begun(course: Course, autostop: bool) {
    match course.state
    case Stop => course.data == Some(true) && autostop && course.stop == None
    case Halt => course.data == Some(false) && course.stop == None
    case Idle => false
    case _ => course.data == None && course.stop == None
  }

  /**
   * A transfer ends in the idle state exactly when its data phase has succeeded and so has
   * the stop command if there is one, provided that no command completes at once: a failed
   * transfer whose stop command completes at once ends in the idle state as well.
   */
  lemma {:induction false} IdleMeansSuccess(course: Course, autostop: bool, answers: nat -> Answers, k: nat)
    requires Begun(course, autostop)
    ensures var last := Last(course, autostop, answers, k);
            && Terminal(last.state)
            && (last.state == Idle <==>
                  (last.data == Some(true) && !autostop) || last.stop == Some(true))
            && ((forall j | k <= j :: answers(j).executed != E_OK) ==>
                  (last.state == Idle <==> last.data == Some(true) && (autostop ==> last.stop == Some(true))))
    decreases Rank(course.state)
  {
    if course.state != Error {
      var next := Next(course, autostop, answers(k));
      if !Terminal(next.state) {
        IdleMeansSuccess(next, autostop, answers, k + 1);
      }
    }
  }

  lemma FirstIsBegun(mode: Mode, answers: Answers, autostop: bool)
    ensures Begun(First(mode, answers), autostop)
    ensures mode == Spi ==> First(mode, answers).state == Launched(answers)
    ensures First(mode, answers) == Course(First(mode, answers).state, None, None)
    ensures First(mode, answers).state != Idle && (Launched(answers) == Transfer || Launched(answers) == Error)
  {
  }

  /** A failed data phase ends in the idle state exactly when its stop command completes at once. */
  lemma FailureCanEndIdle(course: Course, autostop: bool, answers: nat -> Answers, k: nat)
    requires course.state == Transfer && course.stop == None && answers(k).status != E_OK
    ensures Last(course, autostop, answers, k).state == Idle <==> answers(k).executed == E_OK
  {
    var next := Next(course, autostop, answers(k));
    assert Last(course, autostop, answers, k) == Last(next, autostop, answers, k + 1);
    if next.state == Halt {
      var failed := Next(next, autostop, answers(k + 1));
      assert failed.state == Error;
      assert Last(next, autostop, answers, k + 1) == Last(failed, autostop, answers, k + 2) == failed;
    }
  }

  class Device {
    const mode: Mode
    const blocking: bool
    const cardAddress: u32

    var state: State
    var autostop: bool
    var task: Task

    // The operation that the interface is running; its end raises an interrupt
    var running: Option<Operation>
    // Lock of the bus, and counters of acquisitions, releases and completion events
    var locked: bool
    var acquired: nat
    var released: nat
    var events: nat

    // How the data phase and the stop command have ended
    ghost var data: Option<bool>
    ghost var stop: Option<bool>

    constructor (mode: Mode, blocking: bool, autostop: bool, cardAddress: u32)
      ensures Valid() && state == Idle && acquired == released == events == 0
      ensures this.mode == mode && this.blocking == blocking && this.autostop == autostop
    {
      this.mode, this.blocking, this.autostop, this.cardAddress := mode, blocking, autostop, cardAddress;
      state, running, locked, acquired, released, events := Idle, None, false, 0, 0, 0;
      task := Task(0, 0, 0);
      data, stop := None, None;
    }

    ghost function Progress(): Course
      reads this
    {
      Course(state, data, stop)
    }

    /** What the interface does in each state. */
    function Awaited(): Option<Operation>
      reads this
    {
      match state
      case GetStatus => Some(Execute(CMD13_SEND_STATUS, cardAddress * 0x10000 % TWO_32))
      case SelectCard => Some(Execute(CMD7_SELECT_CARD, cardAddress * 0x10000 % TWO_32))
      case Transfer => Some(task.Request())
      case Stop => Some(Execute(CMD12_STOP_TRANSMISSION, 0))
      case Halt => Some(Execute(CMD12_STOP_TRANSMISSION, 0))
      case _ => None
    }

    /** The bus is locked and an interrupt is to come exactly while the state is not final. */
    ghost predicate Valid()
      reads this
    {
      && locked == !Terminal(state) && running == Awaited()
      && acquired == released + (if locked then 1 else 0) && released == events
      && (!Terminal(state) ==> Begun(Progress(), autostop))
    }

    /** A state whose operation has just ended. */
    ghost predicate Interrupted()
      reads this
    {
      && locked && running == None && !Terminal(state) && acquired == released + 1 && released == events
      && Begun(Progress(), autostop)
    }

    /** `executeCommand` without waiting for the end. */
    method ExecuteCommand(index: nat, argument: u32, answers: Answers) returns (res: Result)
      requires running == None
      modifies this`running
      ensures res == answers.executed
      ensures running == if res == E_BUSY then Some(Execute(index, argument)) else None
    {
      res := answers.executed;
      if res == E_BUSY {
        running := Some(Execute(index, argument));
      }
    }

    /** `startTransfer`. */
    method StartTransfer(answers: Answers) returns (res: Result)
      requires running == None && state == Transfer
      modifies this`running
      ensures res == E_OK <==> Launched(answers) == Transfer
      ensures running == if res == E_OK then Awaited() else None
    {
      res := answers.accepted;
      if res != E_OK {
        return;
      }
      // The read or the write either takes the whole buffer or does not start
      if answers.queued {
        running := Some(task.Request());
      } else {
        res := E_INTERFACE;
      }
    }

    /** `onCardSelectionFinished`. */
    method OnCardSelectionFinished(answers: Answers) returns (ok: bool)
      requires running == None
      modifies this`state, this`running
      ensures state == Transfer && running == if ok then Awaited() else None
      ensures ok <==> Launched(answers) == Transfer
    {
      state := Transfer;
      var res := StartTransfer(answers);
      ok := res == E_OK;
    }

    /** `startCardSelection`. */
    method StartCardSelection(answers: Answers) returns (res: Result)
      requires running == None && state == SelectCard
      modifies this`state, this`running
      ensures res == E_OK <==> Selected(answers) != Error
      ensures running == if res == E_OK then Awaited() else None
      ensures res == E_OK ==> state == Selected(answers)
    {
      res := ExecuteCommand(CMD7_SELECT_CARD, cardAddress * 0x10000 % TWO_32, answers);
      if res == E_OK {
        var ok := OnCardSelectionFinished(answers);
        return if ok then E_OK else E_INTERFACE;
      } else {
        return if res != E_BUSY then res else E_OK;
      }
    }

    /** `onTransferStateSetupFinished`. */
    method OnTransferStateSetupFinished(answers: Answers) returns (completed: bool)
      requires running == None && state == GetStatus
      modifies this`state, this`running
      ensures completed <==> Prepared(answers) != Error
      ensures running == if completed then Awaited() else None
      ensures completed ==> state == Prepared(answers)
    {
      completed := true;
      match answers.card
      case E_OK =>
        state := Transfer;
        var res := StartTransfer(answers);
        if res != E_OK {
          completed := false;
        }
      case E_IDLE =>
        state := SelectCard;
        var res := StartCardSelection(answers);
        if res != E_OK {
          completed := false;
        }
      case _ =>
        completed := false;
    }

    /** `startTransferStateSetup`. */
    method StartTransferStateSetup(answers: Answers) returns (res: Result)
      requires running == None && state == GetStatus && mode != Spi
      modifies this`state, this`running
      ensures res == E_OK <==> First(mode, answers).state != Error
      ensures running == if res == E_OK then Awaited() else None
      ensures res == E_OK ==> state == First(mode, answers).state
    {
      res := ExecuteCommand(CMD13_SEND_STATUS, cardAddress * 0x10000 % TWO_32, answers);
      if res == E_OK {
        var ok := OnTransferStateSetupFinished(answers);
        return if ok then E_OK else E_INTERFACE;
      } else {
        return if res != E_BUSY then res else E_OK;
      }
    }

    /** Releases the bus and signals the end of the transfer. */
    method Finish()
      requires locked
      modifies this`locked, this`released, this`events
      ensures !locked && released == old(released) + 1 && events == old(events) + 1
    {
      locked := false;
      released := released + 1;
      events := events + 1;
    }

    /** The end of the data phase: a failed transfer and an open one are terminated by a command. */
    method TransferEnded(answers: Answers) returns (event: bool)
      requires Interrupted() && state == Transfer
      modifies this`state, this`running, this`data, this`stop
      ensures Progress() == Next(old(Progress()), autostop, answers)
      ensures event == Terminal(state) && running == Awaited()
    {
      event := false;
      data := Some(answers.status == E_OK);
      if answers.status == E_OK {
        if !autostop {
          event := true;
          state := Idle;
        } else {
          state := Stop;
        }
      } else {
        state := Halt;
      }
      if state != Idle {
        var res := ExecuteCommand(CMD12_STOP_TRANSMISSION, 0, answers);
        if res == E_OK {
          event := true;
          state := Idle;
          stop := Some(true);
        } else if res != E_BUSY {
          event := true;
          state := Error;
          stop := Some(false);
        }
      }
    }

    /**
     * `interruptHandler`. The event is raised exactly when the state becomes final, and a
     * late interrupt changes nothing.
     */
    method InterruptHandler(answers: Answers)
      requires if Terminal(state) then Valid() else Interrupted()
      modifies this`state, this`running, this`data, this`stop, this`locked, this`released, this`events
      ensures Valid() && Progress() == Next(old(Progress()), autostop, answers)
      ensures events == old(events) + (if !Terminal(old(state)) && Terminal(state) then 1 else 0)
    {
      var event := false;
      match state {
        case GetStatus =>
          var completed := OnTransferStateSetupFinished(answers);
          if !completed {
            event := true;
            state := Error;
          }
        case SelectCard =>
          var completed := OnCardSelectionFinished(answers);
          if !completed {
            event := true;
            state := Error;
          }
        case Transfer =>
          event := TransferEnded(answers);
        case Stop =>
          event := true;
          stop := Some(answers.status == E_OK);
          state := if answers.status == E_OK then Idle else Error;
        case Halt =>
          event := true;
          state := Error;
        case _ =>
      }
      if event {
        Finish();
      }
    }

    /** Environment: the running operation ends and raises its interrupt. */
    method Complete(answers: Answers)
      requires Valid() && !Terminal(state)
      modifies this`state, this`running, this`data, this`stop, this`locked, this`released, this`events
      ensures Valid() && Progress() == Next(old(Progress()), autostop, answers)
      ensures events == old(events) + (if Terminal(state) then 1 else 0)
    {
      running := None;
      InterruptHandler(answers);
    }

    /** `transferBuffer` up to the point where a blocking caller starts to wait. */
    method Start(task: Task, answers: Answers) returns (res: Result)
      requires Valid() && Terminal(state)
      modifies this
      ensures Valid() && acquired == old(acquired) + 1 && autostop == old(autostop)
      ensures this.task == task
      ensures Progress() == First(mode, answers)
      ensures res == E_OK <==> !Terminal(state)
      ensures events == old(events) + (if res == E_OK then 0 else 1)
    {
      assert running == None;
      hide First, Launched, Prepared, Begun, Awaited;
      FirstIsBegun(mode, answers, autostop);
      locked := true;
      acquired := acquired + 1;
      this.task := task;
      data, stop := None, None;
      if mode != Spi {
        state := GetStatus;
        res := StartTransferStateSetup(answers);
      } else {
        state := Transfer;
        res := StartTransfer(answers);
      }
      if res != E_OK {
        state := Error;
        Finish();
      }
    }

    /**
     * A whole transfer, with `answers(0)` for its start and `answers(k)` for interrupt `k`:
     * one acquisition, one release and one event, after at most four interrupts; the result
     * of a blocking call tells how it ended. An asynchronous interface ends idle exactly
     * when the data phase has succeeded and so has the stop command if there is one.
     */
    method TransferBuffer(task: Task, answers: nat -> Answers) returns (res: Result, interrupts: nat)
      requires Valid() && Terminal(state)
      modifies this
      ensures Valid() && Terminal(state) && !locked && autostop == old(autostop) && this.task == task
      ensures acquired == old(acquired) + 1 && released == old(released) + 1 && events == old(events) + 1
      ensures interrupts <= 4
      ensures Progress() == Last(First(mode, answers(0)), autostop, answers, 1)
      ensures interrupts > 0 && !blocking ==> res == E_BUSY
      ensures interrupts > 0 && blocking ==> res == if state == Idle then E_OK else E_INTERFACE
      ensures interrupts == 0 ==> res != E_OK && state == Error
      ensures (forall k :: answers(k).executed != E_OK) ==>
                (state == Idle <==> data == Some(true) && (autostop ==> stop == Some(true)))
    {
      hide Last, Next, First, Launched, Begun, Awaited;
      FirstIsBegun(mode, answers(0), autostop);
      interrupts := 0;
      res := Start(task, answers(0));
      IdleMeansSuccess(Progress(), autostop, answers, 1);
      LastStep(Progress(), autostop, answers, 1);
      if res != E_OK {
        return;
      }
      while !Terminal(state)
        invariant Valid() && acquired == old(acquired) + 1 && autostop == old(autostop) && this.task == task
        invariant events == old(events) + (if Terminal(state) then 1 else 0)
        invariant interrupts + Rank(state) <= 4
        invariant interrupts == 0 ==> !Terminal(state)
        invariant Last(Progress(), autostop, answers, interrupts + 1)
               == Last(First(mode, answers(0)), autostop, answers, 1)
        decreases Rank(state)
      {
        LastStep(Progress(), autostop, answers, interrupts + 1);
        Complete(answers(interrupts + 1));
        interrupts := interrupts + 1;
      }
      LastStep(Progress(), autostop, answers, interrupts + 1);
      res := if blocking then (if state == Error then E_INTERFACE else E_OK) else E_BUSY;
    }
  }
}
