/** One managed operation on the radar: a fixed sequence of commands, each waiting for its
    acknowledgement, then for a frame in the expected mode. */
module CommandTransaction {
  import opened Wrappers
  import opened Bytes
  import opened Clock
  import opened AckHistory

  const ACK_TIMEOUT := 1500
  const FRAME_TIMEOUT := 5000
  const RESTART_FRAME_TIMEOUT := 10000

  const ENABLE_CONFIGURATION: Byte := 0xFF
  const DISABLE_CONFIGURATION: Byte := 0xFE
  const RESTART: Byte := 0xA3
  const ENABLE_ENGINEERING: Byte := 0x62
  const DISABLE_ENGINEERING: Byte := 0x63
  const QUERY_PARAMETERS: Byte := 0x61
  const GATE_SENSITIVITY: Byte := 0x64
  const QUERY_VERSION: Byte := 0xA0
  const QUERY_MAC: Byte := 0xA5
  const QUERY_DISTANCE_RESOLUTION: Byte := 0xAB
  const QUERY_LIGHT_CONTROL: Byte := 0xAE
  const FACTORY_RESET_COMMAND: Byte := 0xA2

  datatype Operation = NoOperation | StartupSync | TuningStart | TuningStop | GateWrite | FactoryReset

  datatype Phase = Idle | SendNext | WaitAck | WaitFrame | SendAbortExit | ReportFailure

  datatype Failure = NoFailure | AckRejected | AckTimeout | UnexpectedAck | FrameTimeout

  datatype Event = Nothing | SendCommand | Completed | Failed

  datatype Command = Command(code: Byte, payload: seq<Byte>)

  datatype Action = Action(event: Event, operation: Operation, failure: Failure, command: Byte, payload: seq<Byte>,
                           ackResult: U16, ignored: Byte, lastCommand: Byte, lastResult: U16)

  const NO_ACTION := Action(Nothing, NoOperation, NoFailure, 0, [], 0, 0, 0, 0)

  // What the transaction reads of the stream's snapshot.
  datatype Stream = Stream(frames: U32, ackSequence: U32, events: seq<AckEvent>, engineering: bool)

  // Acknowledgements looked at so far: those for other commands are counted and remembered.
  datatype Scan = Scan(cursor: U32, ignored: Byte, lastCommand: Byte, lastResult: U16)

  datatype Txn = Txn(phase: Phase, operation: Operation, pending: Failure, deadline: U32, scan: Scan, baseline: U32,
                     expected: Byte, failureCommand: Byte, step: nat, gate: Byte, sensitivity: Byte,
                     failureResult: U16, aborting: bool)

  const IDLE := Txn(Idle, NoOperation, NoFailure, 0, Scan(0, 0, 0, 0), 0, 0, 0, 0, 0, 0, 0, false)

  predicate Busy(t: Txn) {
    t.operation != NoOperation
  }

  function SequenceLength(op: Operation): nat {
    match op
    case StartupSync => 7
    case TuningStart => 4
    case TuningStop => 3
    case GateWrite => 4
    case FactoryReset => 3
    case NoOperation => 0
  }

  // The command for a step, if the operation has one there.
  function CommandForStep(t: Txn): Option<Command>
  {
    if t.step == 0 then Some(Command(ENABLE_CONFIGURATION, [1, 0]))
    else
      match t.operation
      case StartupSync =>
        var codes: seq<Byte> := [QUERY_VERSION, QUERY_MAC, QUERY_DISTANCE_RESOLUTION, QUERY_LIGHT_CONTROL,
                                 QUERY_PARAMETERS, DISABLE_CONFIGURATION];
        if t.step > |codes| then None
        else
          var code := codes[t.step - 1];
          Some(Command(code, if code == QUERY_MAC then [1, 0] else []))
      case TuningStart =>
        if t.step == 1 then Some(Command(ENABLE_ENGINEERING, []))
        else if t.step == 2 then Some(Command(QUERY_PARAMETERS, []))
        else if t.step == SequenceLength(t.operation) - 1 then Some(Command(DISABLE_CONFIGURATION, []))
        else None
      case TuningStop =>
        if t.step == 1 then Some(Command(DISABLE_ENGINEERING, []))
        else if t.step == SequenceLength(t.operation) - 1 then Some(Command(DISABLE_CONFIGURATION, []))
        else None
      case GateWrite =>
        if t.step == 1 then
          var threshold := (100 - t.sensitivity) % 256;
          Some(Command(GATE_SENSITIVITY, [0, 0, t.gate, 0, 0, 0, 1, 0, threshold, 0, 0, 0, 2, 0, threshold, 0, 0, 0]))
        else if t.step == 2 then Some(Command(QUERY_PARAMETERS, []))
        else if t.step == 3 then Some(Command(DISABLE_CONFIGURATION, []))
        else None
      case FactoryReset =>
        if t.step == 1 then Some(Command(FACTORY_RESET_COMMAND, []))
        else if t.step == 2 then Some(Command(RESTART, []))
        else None
      case NoOperation => None
  }

  predicate ExpectsEngineering(op: Operation) {
    op == TuningStart || op == GateWrite
  }

  function Started(t: Txn, op: Operation, now: U32, stream: Stream, gate: Byte, sensitivity: Byte): (Txn, bool) {
    if Busy(t) || op == NoOperation || gate >= 9 || sensitivity > 100 then (t, false)
    else
      (Txn(SendNext, op, NoFailure, now, Scan(stream.ackSequence, 0, 0, 0), stream.frames,
           0, 0, 0, gate, sensitivity, 0, false), true)
  }

  // Looks for the first newer acknowledgement of the expected command.
  function ScanAcks(events: seq<AckEvent>, s: Scan, expected: Byte): (Scan, Option<AckEvent>) {
    if events == [] then (s, None)
    else if !SequenceAfter(events[0].sequence, s.cursor) then ScanAcks(events[1..], s, expected)
    else if events[0].command != expected then
      ScanAcks(events[1..],
               Scan(events[0].sequence, if s.ignored == 255 then 255 else s.ignored + 1, events[0].command, events[0].result),
               expected)
    else (s.(cursor := events[0].sequence), Some(events[0]))
  }

  function BeginFailure(t: Txn, failure: Failure, result: U16): Txn {
    t.(pending := failure, failureCommand := t.expected, failureResult := result,
       phase := if t.expected == DISABLE_CONFIGURATION || t.expected == RESTART then ReportFailure else SendAbortExit)
  }

  function Finish(t: Txn, event: Event, failure: Failure): (Txn, Action) {
    (IDLE, Action(event, t.operation, failure, if failure == NoFailure then t.expected else t.failureCommand, [],
                  t.failureResult, t.scan.ignored, t.scan.lastCommand, t.scan.lastResult))
  }

  function Send(t: Txn, now: U32, stream: Stream): (Txn, Action)
  {
    var aborting := t.aborting || t.phase == SendAbortExit;
    var command := if t.phase == SendAbortExit then Some(Command(DISABLE_CONFIGURATION, [])) else CommandForStep(t);
    if command.None? then Finish(t, Failed, UnexpectedAck)
    else
      var last := t.step + 1 >= SequenceLength(t.operation) && !aborting;
      (t.(phase := WaitAck, aborting := aborting, expected := command.value.code,
          scan := t.scan.(cursor := stream.ackSequence),
          baseline := if last then stream.frames else t.baseline, deadline := Wrap32(now + ACK_TIMEOUT)),
       NO_ACTION.(event := SendCommand, operation := t.operation, command := command.value.code, payload := command.value.payload))
  }

  // A matching acknowledgement moves on to the next step, or to the abort.
  function Acknowledged(t: Txn, now: U32, result: U16): Txn {
    if t.aborting then t.(phase := ReportFailure)
    else if result != 0 then BeginFailure(t, AckRejected, result)
    else if t.step + 1 >= SequenceLength(t.operation) then
      t.(step := t.step + 1, phase := WaitFrame,
         deadline := Wrap32(now + if t.operation == FactoryReset then RESTART_FRAME_TIMEOUT else FRAME_TIMEOUT))
    else t.(step := t.step + 1, phase := SendNext)
  }

  function AwaitAck(t: Txn, now: U32, stream: Stream): (Txn, Action) {
    if t.operation == FactoryReset && t.expected == RESTART && stream.frames > t.baseline && !stream.engineering then
      Finish(t, Completed, NoFailure)
    else
      var (scan, found) := ScanAcks(stream.events, t.scan, t.expected);
      var t1 := t.(scan := scan);
      if found.Some? then (Acknowledged(t1, now, found.value.result), NO_ACTION)
      else if TimeReached(now, t.deadline) then
        (if t.aborting then t1.(phase := ReportFailure) else BeginFailure(t1, AckTimeout, 0), NO_ACTION)
      else (t1, NO_ACTION)
  }

  function AwaitFrame(t: Txn, now: U32, stream: Stream): (Txn, Action) {
    if stream.frames > t.baseline && stream.engineering == ExpectsEngineering(t.operation) then
      Finish(t, Completed, NoFailure)
    else if TimeReached(now, t.deadline) then Finish(t, Failed, FrameTimeout)
    else (t, NO_ACTION)
  }

  function Updated(t: Txn, now: U32, stream: Stream): (Txn, Action)
  {
    if !Busy(t) then (t, NO_ACTION)
    else
      match t.phase
      case SendNext => Send(t, now, stream)
      case SendAbortExit => Send(t, now, stream)
      case WaitAck => AwaitAck(t, now, stream)
      case WaitFrame => AwaitFrame(t, now, stream)
      case ReportFailure => Finish(t, Failed, t.pending)
      case Idle => (t, NO_ACTION)
  }

  class Transaction {
    var phase: Phase
    var operation: Operation
    var pending: Failure
    var deadline: U32
    var cursor: U32
    var baseline: U32
    var expected: Byte
    var failureCommand: Byte
    var step: nat
    var gate: Byte
    var sensitivity: Byte
    var failureResult: U16
    var ignored: Byte
    var lastCommand: Byte
    var lastResult: U16
    var aborting: bool

    function View(): Txn
      reads this
    {
      Txn(phase, operation, pending, deadline, Scan(cursor, ignored, lastCommand, lastResult), baseline,
          expected, failureCommand, step, gate, sensitivity, failureResult, aborting)
    }

    constructor ()
      ensures View() == IDLE
    {
      phase, operation, pending, deadline, cursor, baseline := Idle, NoOperation, NoFailure, 0, 0, 0;
      expected, failureCommand, step, gate, sensitivity := 0, 0, 0, 0, 0;
      failureResult, ignored, lastCommand, lastResult, aborting := 0, 0, 0, 0, false;
    }

    method ResetReport()
      modifies this`failureCommand, this`failureResult, this`ignored, this`lastCommand, this`lastResult, this`aborting
      ensures failureCommand == 0 && failureResult == 0 && ignored == 0 && lastCommand == 0 && lastResult == 0 && !aborting
    {
      failureCommand, failureResult, ignored, lastCommand, lastResult, aborting := 0, 0, 0, 0, 0, false;
    }

    method ResetCommand()
      modifies this`baseline, this`expected, this`step, this`gate, this`sensitivity
      ensures baseline == 0 && expected == 0 && step == 0 && gate == 0 && sensitivity == 0
    {
      baseline, expected, step, gate, sensitivity := 0, 0, 0, 0, 0;
    }

    method Reset()
      modifies this
      ensures View() == IDLE
    {
      phase, operation, pending, deadline, cursor := Idle, NoOperation, NoFailure, 0, 0;
      ResetCommand();
      ResetReport();
    }

    method Start(op: Operation, now: U32, stream: Stream, newGate: Byte, newSensitivity: Byte) returns (ok: bool)
      modifies this
      ensures (View(), ok) == Started(old(View()), op, now, stream, newGate, newSensitivity)
    {
      if operation != NoOperation || op == NoOperation || newGate >= 9 || newSensitivity > 100 {
        return false;
      }
      Reset();
      operation, phase, deadline, cursor := op, SendNext, now, stream.ackSequence;
      baseline, gate, sensitivity := stream.frames, newGate, newSensitivity;
      ok := true;
    }

    method End(event: Event, failure: Failure) returns (action: Action)
      modifies this
      ensures (View(), action) == Finish(old(View()), event, failure)
    {
      action := Action(event, operation, failure, if failure == NoFailure then expected else failureCommand, [],
                       failureResult, ignored, lastCommand, lastResult);
      Reset();
    }

    method Fail(failure: Failure, result: U16)
      modifies this
      ensures View() == BeginFailure(old(View()), failure, result)
    {
      pending, failureCommand, failureResult := failure, expected, result;
      if expected != DISABLE_CONFIGURATION && expected != RESTART {
        phase := SendAbortExit;
      } else {
        phase := ReportFailure;
      }
    }

    method Transmit(now: U32, stream: Stream) returns (action: Action)
      modifies this
      ensures (View(), action) == Send(old(View()), now, stream)
    {
      var command := Command(DISABLE_CONFIGURATION, []);
      if phase == SendAbortExit {
        aborting := true;
      } else {
        var found := CommandForStep(View());
        if found.None? {
          action := End(Failed, UnexpectedAck);
          return;
        }
        command := found.value;
      }
      action := NO_ACTION.(event := SendCommand, operation := operation, command := command.code, payload := command.payload);
      expected, cursor := command.code, stream.ackSequence;
      if step + 1 >= SequenceLength(operation) && !aborting {
        baseline := stream.frames;
      }
      deadline, phase := Wrap32(now + ACK_TIMEOUT), WaitAck;
    }

    method MatchAck(events: seq<AckEvent>) returns (found: Option<AckEvent>)
      modifies this`cursor, this`ignored, this`lastCommand, this`lastResult
      ensures View() == old(View()).(scan := ScanAcks(events, old(View()).scan, expected).0)
      ensures found == ScanAcks(events, old(View()).scan, expected).1
    {
      ghost var goal := ScanAcks(events, View().scan, expected);
      found := None;
      var index := 0;
      while index < |events|
        invariant index <= |events|
        invariant View() == old(View()).(scan := View().scan)
        invariant ScanAcks(events[index..], View().scan, expected) == goal
      {
        var event := events[index];
        assert events[index..][1..] == events[index + 1..];
        if SequenceAfter(event.sequence, cursor) {
          cursor := event.sequence;
          if event.command == expected {
            return Some(event);
          }
          if ignored != 255 {
            ignored := ignored + 1;
          }
          lastCommand, lastResult := event.command, event.result;
        }
        index := index + 1;
      }
    }

    method Wait(now: U32, stream: Stream) returns (action: Action)
      modifies this
      ensures (View(), action) == AwaitAck(old(View()), now, stream)
    {
      hide ScanAcks, TimeReached;
      if operation == FactoryReset && expected == RESTART && stream.frames > baseline && !stream.engineering {
        action := End(Completed, NoFailure);
        return;
      }
      action := NO_ACTION;
      var found := MatchAck(stream.events);
      if found.Some? {
        if aborting {
          phase := ReportFailure;
        } else if found.value.result != 0 {
          Fail(AckRejected, found.value.result);
        } else {
          step := step + 1;
          if step >= SequenceLength(operation) {
            phase := WaitFrame;
            deadline := Wrap32(now + if operation == FactoryReset then RESTART_FRAME_TIMEOUT else FRAME_TIMEOUT);
          } else {
            phase := SendNext;
          }
        }
      } else if TimeReached(now, deadline) {
        if aborting {
          phase := ReportFailure;
        } else {
          Fail(AckTimeout, 0);
        }
      }
    }

    method Update(now: U32, stream: Stream) returns (action: Action)
      modifies this
      ensures (View(), action) == Updated(old(View()), now, stream)
    {
      hide Send, AwaitAck, TimeReached;
      action := NO_ACTION;
      if operation == NoOperation { return; }
      match phase
      case SendNext => action := Transmit(now, stream);
      case SendAbortExit => action := Transmit(now, stream);
      case WaitAck => action := Wait(now, stream);
      case WaitFrame =>
        if stream.frames > baseline && stream.engineering == ExpectsEngineering(operation) {
          action := End(Completed, NoFailure);
        } else if TimeReached(now, deadline) {
          action := End(Failed, FrameTimeout);
        }
      case ReportFailure => action := End(Failed, pending);
      case Idle =>
    }
  }
}
