/** The command state machines: one transition table for every kind of command. */
module CommandMachine {
  datatype CommandState =
    | Created
    | CommandSent
    | CanceledBeforeInitiated
    | Initiated
    | Started
    | CanceledAfterInitiated
    | CanceledAfterStarted
    | CancellationCommandSent
    | CompletedAfterCancellationCommandSent
    | Completed
    | CanceledBeforeSent
    | CancellationCommandAccepted

  /** The command types that have a state machine. */
  datatype CommandType =
    | ActivityType
    | ChildType
    | CancellationType
    | MarkerType
    | TimerType
    | SignalType
    | UpsertType
    | CancelTimerType
    | CancelActivityType
    | ModifyPropertiesType
    | ProtocolMessageType
    | NexusType
    | CancelNexusType

  /** Identifiers are either text or a formatted integer; each command type uses only one form. */
  datatype Name = Text(text: string) | Number(number: int)

  datatype CommandID = CommandID(ctype: CommandType, name: Name)

  /** The methods of `commandStateMachine` that may move the state. */
  datatype MachineEvent =
    | EvSent
    | EvCancel
    | EvInitiated
    | EvInitiationFailed
    | EvStarted
    | EvCompletion
    | EvCancelInitiated
    | EvCancelFailed
    | EvCanceled
    | EvExternalCancelRequested

  /** What a method does to the state; `Illegal` stands for a panic. */
  datatype Move = To(state: CommandState) | Stay | Illegal

  /** The methods of `commandStateMachineBase`. */
  function BaseMove(s: CommandState, e: MachineEvent): Move {
    match e
    case EvSent => if s == Created then To(CommandSent) else Stay
    case EvCancel =>
      (match s
       case Completed | CompletedAfterCancellationCommandSent => Stay
       case CanceledAfterInitiated | CancellationCommandSent => Stay
       case Created => To(CanceledBeforeSent)
       case CommandSent => To(CancellationCommandSent)
       case Initiated => To(CanceledAfterInitiated)
       case _ => Illegal)
    case EvInitiated =>
      (match s
       case CommandSent => To(Initiated)
       case CanceledBeforeInitiated | CanceledBeforeSent | CancellationCommandSent => To(CanceledAfterInitiated)
       case _ => Illegal)
    case EvInitiationFailed =>
      (match s
       case Initiated | CommandSent | CanceledBeforeInitiated | CancellationCommandSent => To(Completed)
       case _ => Illegal)
    case EvStarted => Stay
    case EvCompletion =>
      (match s
       case CanceledAfterInitiated | Initiated => To(Completed)
       case CancellationCommandSent => To(CompletedAfterCancellationCommandSent)
       case _ => Illegal)
    case EvCancelInitiated =>
      (match s
       case CancellationCommandSent | CanceledAfterInitiated => Stay
       case Initiated => To(CanceledAfterInitiated)
       case _ => Illegal)
    case EvCancelFailed => if s == CompletedAfterCancellationCommandSent then To(Completed) else Illegal
    case EvCanceled =>
      (match s
       case CancellationCommandSent | CanceledAfterInitiated | CanceledAfterStarted
          | CancellationCommandAccepted => To(Completed)
       case _ => Illegal)
    case EvExternalCancelRequested => Illegal
  }

  function TimerMove(s: CommandState, e: MachineEvent): Move {
    if e == EvSent && s == CanceledAfterInitiated then To(CancellationCommandSent) else BaseMove(s, e)
  }

  function ActivityMove(s: CommandState, e: MachineEvent): Move {
    if e == EvCancelFailed then Illegal else TimerMove(s, e)
  }

  function ChildMove(s: CommandState, e: MachineEvent): Move {
    match e
    case EvSent => if s == CanceledAfterStarted then To(CancellationCommandSent) else BaseMove(s, e)
    case EvStarted =>
      (match s
       case Initiated => To(Started)
       case CanceledAfterInitiated => To(CanceledAfterStarted)
       case _ => BaseMove(s, e))
    case EvInitiated => if s == CancellationCommandSent then Illegal else BaseMove(s, e)
    case EvCancelFailed => if s == CancellationCommandSent then To(Started) else BaseMove(s, e)
    case EvCancel => if s == Started then To(CanceledAfterStarted) else BaseMove(s, e)
    case EvCanceled =>
      (match s
       case Started => To(Completed)
       case CancellationCommandSent => To(CompletedAfterCancellationCommandSent)
       case _ => BaseMove(s, e))
    case EvCompletion =>
      (match s
       case Started | CanceledAfterStarted | CompletedAfterCancellationCommandSent
          | CancellationCommandAccepted => To(Completed)
       case _ => BaseMove(s, e))
    case EvExternalCancelRequested =>
      if s == CompletedAfterCancellationCommandSent then To(Completed) else To(CancellationCommandAccepted)
    case _ => BaseMove(s, e)
  }

  /** Signals to, and cancellations of, external workflows. */
  function ExternalMove(s: CommandState, e: MachineEvent): Move {
    match e
    case EvSent => BaseMove(s, e)
    case EvInitiated => if s == CommandSent then To(Initiated) else Illegal
    case EvCompletion => if s == Initiated then To(Completed) else Illegal
    case _ => Illegal
  }

  /** Markers, upserts, memo changes and protocol messages complete when they are sent. */
  function OneShotMove(s: CommandState, e: MachineEvent): Move {
    if e != EvSent then Illegal else if s == Created then To(Completed) else Stay
  }

  /** `cancel` on a Nexus operation moves no state of its own; see `HelperState.CancelNexusAt`. */
  function NexusMove(s: CommandState, e: MachineEvent): Move {
    match e
    case EvStarted => if s == Initiated then To(Started) else Illegal
    case EvCompletion => if s == Initiated || s == Started then To(Completed) else Illegal
    case EvCancel => Stay
    case _ => BaseMove(s, e)
  }

  function CancelNexusMove(s: CommandState, e: MachineEvent): Move {
    match e
    case EvInitiated => if s == CommandSent then To(Initiated) else Illegal
    case EvCompletion => if s == Created || s == Initiated then To(Completed) else Illegal
    case _ => BaseMove(s, e)
  }

  function MoveOf(t: CommandType, s: CommandState, e: MachineEvent): Move {
    match t
    case ActivityType => ActivityMove(s, e)
    case TimerType => TimerMove(s, e)
    case ChildType => ChildMove(s, e)
    case CancellationType | SignalType => ExternalMove(s, e)
    case MarkerType | UpsertType | ModifyPropertiesType | ProtocolMessageType => OneShotMove(s, e)
    case CancelTimerType | CancelActivityType => BaseMove(s, e)
    case NexusType => NexusMove(s, e)
    case CancelNexusType => CancelNexusMove(s, e)
  }

  predicate CompletesOnSend(t: CommandType) {
    t in {MarkerType, UpsertType, ModifyPropertiesType, ProtocolMessageType}
  }
}
