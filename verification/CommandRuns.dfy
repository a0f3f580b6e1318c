/** Runs of a managed operation: which commands go out, what each one waited for, and that every
    run ends. */
module CommandRuns {
  import opened Wrappers
  import opened Bytes
  import opened Clock
  import opened AckHistory
  import opened CommandTransaction

  datatype Job = Job(op: Operation, gate: Byte, sensitivity: Byte)

  predicate Startable(j: Job) {
    j.op != NoOperation && j.gate < 9 && j.sensitivity <= 100
  }

  function Plain(code: Byte): Command {
    Command(code, [])
  }

  // The commands of an operation, in order.
  function Sequence(j: Job): (s: seq<Command>)
    requires Startable(j)
    ensures |s| == SequenceLength(j.op) >= 3
    ensures forall i | 0 <= i < |s| :: s[i].code in {DISABLE_CONFIGURATION, RESTART} <==> i == |s| - 1
  {
    var enable := Command(ENABLE_CONFIGURATION, [1, 0]);
    match j.op
    case StartupSync =>
      [enable, Plain(QUERY_VERSION), Command(QUERY_MAC, [1, 0]), Plain(QUERY_DISTANCE_RESOLUTION),
       Plain(QUERY_LIGHT_CONTROL), Plain(QUERY_PARAMETERS), Plain(DISABLE_CONFIGURATION)]
    case TuningStart => [enable, Plain(ENABLE_ENGINEERING), Plain(QUERY_PARAMETERS), Plain(DISABLE_CONFIGURATION)]
    case TuningStop => [enable, Plain(DISABLE_ENGINEERING), Plain(DISABLE_CONFIGURATION)]
    case GateWrite =>
      var t := 100 - j.sensitivity;
      var write := Command(GATE_SENSITIVITY, [0, 0, j.gate, 0, 0, 0, 1, 0, t, 0, 0, 0, 2, 0, t, 0, 0, 0]);
      [enable, write, Plain(QUERY_PARAMETERS), Plain(DISABLE_CONFIGURATION)]
    case FactoryReset => [enable, Plain(FACTORY_RESET_COMMAND), Plain(RESTART)]
  }

  // One update: the clock, every acknowledgement so far, and what the stream shows.
  datatype Observation = Observation(now: U32, history: seq<Ack>, frames: U32, engineering: bool)

  function StreamOf(o: Observation): Stream {
    Stream(o.frames, Wire(|o.history|), Events(o.history), o.engineering)
  }

  // A command sent, and how many acknowledgements there had been.
  datatype Sent = Sent(command: Command, at: nat, abort: bool)

  datatype Run = Run(t: Txn, log: seq<Sent>, outcome: Option<Action>)

  function Begun(j: Job, o: Observation): Run {
    Run(Started(IDLE, j.op, o.now, StreamOf(o), j.gate, j.sensitivity).0, [], None)
  }

  function Step(r: Run, o: Observation): Run
  {
    if r.outcome.Some? then r
    else
      var (t, a) := Updated(r.t, o.now, StreamOf(o));
      Run(t,
          if a.event.SendCommand? then r.log + [Sent(Command(a.command, a.payload), |o.history|, t.aborting)] else r.log,
          if a.event.Completed? || a.event.Failed? then Some(a) else None)
  }

  // The acknowledgement history only grows, by less than half the counter's range between updates.
  ghost predicate Follows(was: seq<Ack>, now: seq<Ack>) {
    was <= now && |now| < |was| + HALF - 1
  }

  // A zero-result acknowledgement of the command came after it was sent.
  ghost predicate Acked(h: seq<Ack>, s: Sent, before: nat) {
    before <= |h| && exists j :: s.at <= j < before && h[j] == Ack(s.command.code, 0)
  }

  // The commands are a prefix of the sequence, each but the first sent after its predecessor was
  // acknowledged; an abort may only come last, and closes the configuration mode.
  ghost predicate Disciplined(j: Job, log: seq<Sent>, h: seq<Ack>)
    requires Startable(j)
  {
    forall i | 0 <= i < |log| :: InTurn(j, log, h, i)
  }

  ghost predicate InTurn(j: Job, log: seq<Sent>, h: seq<Ack>, i: nat)
    requires Startable(j) && i < |log|
  {
    && log[i].at <= |h|
    && if log[i].abort then 0 < i == |log| - 1 && log[i].command == Plain(DISABLE_CONFIGURATION)
       else
         && i < |Sequence(j)| && log[i].command == Sequence(j)[i]
         && (i > 0 ==> Acked(h, log[i - 1], log[i].at))
  }

  predicate Closing(s: Sent) {
    s.command.code in {DISABLE_CONFIGURATION, RESTART}
  }

  predicate Explained(t: Txn) {
    t.pending != NoFailure && t.pending != UnexpectedAck
  }

  ghost predicate InPhase(j: Job, r: Run, h: seq<Ack>)
    requires Startable(j)
  {
    var n := |r.log|;
    var t := r.t;
    match t.phase
    case SendNext =>
      !t.aborting && t.step == n < |Sequence(j)| && (n > 0 ==> !r.log[n - 1].abort && Acked(h, r.log[n - 1], |h|))
    case WaitAck =>
      && n > 0 && t.scan.cursor == Wire(|h|) && t.expected == r.log[n - 1].command.code
      && r.log[n - 1].abort == t.aborting && (if t.aborting then Explained(t) else n == t.step + 1)
    case WaitFrame => n == |Sequence(j)| && !r.log[n - 1].abort && Acked(h, r.log[n - 1], |h|)
    case SendAbortExit => n > 0 && !r.log[n - 1].abort && Explained(t)
    case ReportFailure => n > 0 && Closing(r.log[n - 1]) && Explained(t)
    case Idle => false
  }

  // How a finished run ended.
  ghost predicate Ended(j: Job, log: seq<Sent>, a: Action, h: seq<Ack>)
    requires Startable(j)
  {
    && a.operation == j.op && log != [] && Closing(log[|log| - 1])
    && match a.event
       case Completed =>
         && |log| == |Sequence(j)| && !log[|log| - 1].abort
         && (j.op != FactoryReset ==> Acked(h, log[|log| - 1], |h|))
       case Failed => a.failure != NoFailure && a.failure != UnexpectedAck
       case _ => false
  }

  ghost predicate Inv(j: Job, r: Run, h: seq<Ack>)
    requires Startable(j)
  {
    && Disciplined(j, r.log, h)
    && match r.outcome
       case Some(a) => Ended(j, r.log, a, h)
       case None => r.t.operation == j.op && r.t.gate == j.gate && r.t.sensitivity == j.sensitivity && InPhase(j, r, h)
  }

  lemma AckedLater(was: seq<Ack>, h: seq<Ack>, s: Sent, before: nat)
    requires was <= h && Acked(was, s, before)
    ensures Acked(h, s, before) && Acked(h, s, |h|)
  {
    var k :| s.at <= k < before && was[k] == Ack(s.command.code, 0);
    assert h[k] == was[k];
  }

  lemma DisciplineLater(j: Job, log: seq<Sent>, was: seq<Ack>, h: seq<Ack>)
    requires Startable(j) && was <= h && Disciplined(j, log, was)
    ensures Disciplined(j, log, h)
  {
    hide Acked, Sequence;
    forall i | 0 <= i < |log| ensures InTurn(j, log, h, i) {
      assert InTurn(j, log, was, i);
      if i > 0 && !log[i].abort {
        AckedLater(was, h, log[i - 1], log[i].at);
      }
    }
  }

  lemma DisciplineGrows(j: Job, log: seq<Sent>, s: Sent, h: seq<Ack>)
    requires Startable(j) && Disciplined(j, log, h) && (log != [] ==> !log[|log| - 1].abort)
    requires InTurn(j, log + [s], h, |log|)
    ensures Disciplined(j, log + [s], h)
  {
    hide Acked, Sequence;
    var more := log + [s];
    forall i | 0 <= i < |more| ensures InTurn(j, more, h, i) {
      if i < |log| { assert InTurn(j, log, h, i); }
    }
  }

  // From any kept acknowledgement on, a scan whose cursor stands at the m-th finds only an
  // acknowledgement of the expected command after it, or else ends at the newest.
  lemma {:induction false} ScanFinds(h: seq<Ack>, k: nat, m: nat, s: Scan, expected: Byte)
    requires k <= Kept(|h|) && m <= |h| < m + HALF - 1 && s.cursor == Wire(m)
    requires k > 0 ==> m >= |h| - Kept(|h|) + k
    ensures var (scan, found) := ScanAcks(Events(h)[k..], s, expected);
            match found
            case None => scan.cursor == Wire(|h|)
            case Some(e) => exists i :: m <= i < |h| && h[i] == Ack(e.command, e.result) && e.command == expected
    decreases Kept(|h|) - k
  {
    if k < Kept(|h|) {
      var x := |h| - Kept(|h|) + k + 1;
      var e := Events(h)[k];
      assert e == AckEvent(Wire(x), h[x - 1].result, h[x - 1].command);
      assert Events(h)[k..][1..] == Events(h)[k + 1..];
      WireOrder(x, m);
      hide Wire, Events, SequenceAfter;
      if x <= m {
        ScanFinds(h, k + 1, m, s, expected);
      } else if e.command != expected {
        var more := Scan(e.sequence, if s.ignored == 255 then 255 else s.ignored + 1, e.command, e.result);
        ScanFinds(h, k + 1, x, more, expected);
      } else {
        assert h[x - 1] == Ack(e.command, e.result);
      }
    }
  }

  lemma StepCommand(j: Job, t: Txn)
    requires Startable(j) && t.operation == j.op && t.gate == j.gate && t.sensitivity == j.sensitivity
    requires t.step < SequenceLength(j.op)
    ensures CommandForStep(t) == Some(Sequence(j)[t.step])
  {
  }

  lemma SendKeeps(j: Job, r: Run, was: seq<Ack>, o: Observation)
    requires Startable(j) && Inv(j, r, was) && Follows(was, o.history) && r.outcome.None?
    requires r.t.phase == SendNext || r.t.phase == SendAbortExit
    ensures Inv(j, Step(r, o), o.history)
  {
    DisciplineLater(j, r.log, was, o.history);
    var n := |r.log|;
    if n > 0 { assert InTurn(j, r.log, was, n - 1); }
    if r.t.phase == SendNext {
      StepCommand(j, r.t);
      if n > 0 { AckedLater(was, o.history, r.log[n - 1], |was|); }
    }
    hide Acked, Sequence, Events, CommandForStep, Disciplined;
    assert Updated(r.t, o.now, StreamOf(o)) == Send(r.t, o.now, StreamOf(o));
    var next := Step(r, o);
    var last := next.log[n];
    assert next.log == r.log + [last];
    DisciplineGrows(j, r.log, last, o.history);
  }

  // What looking through the acknowledgements since a command's sending tells.
  lemma WaitFinds(t: Txn, sent: Sent, was: seq<Ack>, o: Observation)
    requires Follows(was, o.history) && t.scan.cursor == Wire(|was|) && t.expected == sent.command.code && sent.at <= |was|
    ensures var (scan, found) := ScanAcks(StreamOf(o).events, t.scan, t.expected);
            && (found.None? ==> scan.cursor == Wire(|o.history|))
            && (found.Some? && found.value.result == 0 ==> Acked(o.history, sent, |o.history|))
  {
    ScanFinds(o.history, 0, |was|, t.scan, t.expected);
    assert Events(o.history)[0..] == Events(o.history);
    hide Events, ScanAcks, Wire;
  }

  // Which commands close the configuration mode: an abort, and the last of the sequence.
  lemma LastSent(j: Job, log: seq<Sent>, h: seq<Ack>)
    requires Startable(j) && Disciplined(j, log, h) && log != []
    ensures var last := log[|log| - 1];
            && last.at <= |h|
            && (if last.abort then last.command.code == DISABLE_CONFIGURATION
                else |log| <= |Sequence(j)| && (Closing(last) <==> |log| == |Sequence(j)|))
  {
    assert InTurn(j, log, h, |log| - 1);
  }

  lemma WaitKeeps(j: Job, r: Run, was: seq<Ack>, o: Observation)
    requires Startable(j) && Inv(j, r, was) && Follows(was, o.history) && r.outcome.None? && r.t.phase == WaitAck
    ensures Inv(j, Step(r, o), o.history)
  {
    DisciplineLater(j, r.log, was, o.history);
    LastSent(j, r.log, was);
    hide Acked, Events, ScanAcks, Wire, TimeReached, Disciplined, Sequence;
    WaitFinds(r.t, r.log[|r.log| - 1], was, o);
    assert Updated(r.t, o.now, StreamOf(o)) == AwaitAck(r.t, o.now, StreamOf(o));
    var (scan, found) := ScanAcks(StreamOf(o).events, r.t.scan, r.t.expected);
    if Step(r, o).t.phase == WaitAck {
      assert found.None?;
      assert Step(r, o).t == r.t.(scan := scan);
    }
  }

  lemma RestKeeps(j: Job, r: Run, was: seq<Ack>, o: Observation)
    requires Startable(j) && Inv(j, r, was) && Follows(was, o.history)
    requires r.outcome.Some? || r.t.phase == WaitFrame || r.t.phase == ReportFailure
    ensures Inv(j, Step(r, o), o.history)
  {
    DisciplineLater(j, r.log, was, o.history);
    var last := r.log[|r.log| - 1];
    assert InTurn(j, r.log, was, |r.log| - 1);
    if Acked(was, last, |was|) {
      AckedLater(was, o.history, last, |was|);
    }
    hide Acked, Events, Wire, TimeReached;
  }

  lemma StepKeeps(j: Job, r: Run, was: seq<Ack>, o: Observation)
    requires Startable(j) && Inv(j, r, was) && Follows(was, o.history)
    ensures Inv(j, Step(r, o), o.history)
  {
    hide Disciplined, Ended, Step, Follows;
    if r.outcome.None? && r.t.phase == WaitAck {
      WaitKeeps(j, r, was, o);
    } else if r.outcome.None? && (r.t.phase == SendNext || r.t.phase == SendAbortExit) {
      SendKeeps(j, r, was, o);
    } else {
      RestKeeps(j, r, was, o);
    }
  }

  ghost predicate Steady(obs: seq<Observation>) {
    forall i | 0 < i < |obs| :: Follows(obs[i - 1].history, obs[i].history)
  }

  // The run of an operation started at the first observation and updated at each of the others.
  ghost predicate IsRun(j: Job, obs: seq<Observation>, runs: seq<Run>) {
    && |runs| == |obs| > 0 && runs[0] == Begun(j, obs[0])
    && forall i | 0 < i < |obs| :: runs[i] == Step(runs[i - 1], obs[i])
  }

  // Main result: the discipline holds throughout every run, and a run that ends has sent a
  // command that leaves the configuration mode.
  lemma {:induction false} RunIsDisciplined(j: Job, obs: seq<Observation>, runs: seq<Run>, k: nat)
    requires Startable(j) && Steady(obs) && IsRun(j, obs, runs) && k < |runs|
    ensures Inv(j, runs[k], obs[k].history)
    ensures Disciplined(j, runs[k].log, obs[k].history)
    ensures runs[k].outcome.Some? ==> Ended(j, runs[k].log, runs[k].outcome.value, obs[k].history)
  {
    hide Step, Ended, Follows, InPhase;
    if k == 0 {
      BegunKeeps(j, obs[0]);
    } else {
      hide Disciplined;
      RunIsDisciplined(j, obs, runs, k - 1);
      StepKeeps(j, runs[k - 1], obs[k - 1].history, obs[k]);
    }
  }

  lemma BegunKeeps(j: Job, o: Observation)
    requires Startable(j)
    ensures Inv(j, Begun(j, o), o.history)
  {
  }

  // Progress, whatever the stream shows.

  predicate Sane(t: Txn) {
    && (Busy(t) ==> t.phase != Idle)
    && (t.phase == SendNext ==> !t.aborting && t.step < SequenceLength(t.operation))
    && (t.phase == WaitAck && !t.aborting ==> t.step < SequenceLength(t.operation))
    && t.pending != UnexpectedAck
  }

  function Measure(t: Txn): int {
    match t.phase
    case SendNext => 2 * (SequenceLength(t.operation) - t.step) + 3
    case WaitAck => if t.aborting then 2 else 2 * (SequenceLength(t.operation) - t.step) + 2
    case SendAbortExit => 3
    case WaitFrame => 1
    case ReportFailure => 1
    case Idle => 0
  }

  // The call is not a wait that still has time.
  predicate Due(t: Txn, now: U32) {
    (t.phase == WaitAck || t.phase == WaitFrame) ==> TimeReached(now, t.deadline)
  }

  // An update of a busy transaction either waits, changing nothing but which acknowledgements it
  // has looked at, or gets strictly closer to its end.  It never runs out of commands.
  lemma UpdateProgresses(t: Txn, now: U32, stream: Stream)
    requires Sane(t) && Busy(t)
    ensures var (t', a) := Updated(t, now, stream);
            && Sane(t') && 0 <= Measure(t') && a.failure != UnexpectedAck
            && (Busy(t') <==> !(a.event.Completed? || a.event.Failed?))
            && (Measure(t') < Measure(t) || (!Due(t, now) && a == NO_ACTION && t' == t.(scan := t'.scan)))
  {
    hide TimeReached, ScanAcks;
    if t.phase == SendNext {
      var j := Job(t.operation, 0, t.sensitivity);
      assert CommandForStep(t).Some?;
    }
  }

  function Drive(t: Txn, calls: seq<(U32, Stream)>): Option<Action>
    decreases |calls|
  {
    if calls == [] then None
    else
      var (t', a) := Updated(t, calls[0].0, calls[0].1);
      if a.event.Completed? || a.event.Failed? then Some(a)
      else Drive(t', calls[1..])
  }

  // How many of the calls were due, up to the end of the transaction.
  function DueCalls(t: Txn, calls: seq<(U32, Stream)>): nat
    decreases |calls|
  {
    if calls == [] then 0
    else
      var (t', a) := Updated(t, calls[0].0, calls[0].1);
      (if Due(t, calls[0].0) then 1 else 0) +
      if a.event.Completed? || a.event.Failed? then 0 else DueCalls(t', calls[1..])
  }

  // Main result: due calls, as many as the measure, bring any transaction to its end.
  lemma {:induction false} DueCallsFinish(t: Txn, calls: seq<(U32, Stream)>)
    requires Sane(t) && Busy(t) && DueCalls(t, calls) >= Measure(t)
    ensures Drive(t, calls).Some? && Drive(t, calls).value.failure != UnexpectedAck
    decreases |calls|
  {
    hide Updated, Due;
    if calls == [] {
      MeasurePositive(t);
    } else {
      UpdateProgresses(t, calls[0].0, calls[0].1);
      var (t', a) := Updated(t, calls[0].0, calls[0].1);
      if !(a.event.Completed? || a.event.Failed?) {
        hide Sane, Measure;
        if t' == t.(scan := t'.scan) { MeasureOf(t, t'); }
        DueCallsFinish(t', calls[1..]);
      }
    }
  }

  lemma MeasurePositive(t: Txn)
    requires Sane(t) && Busy(t)
    ensures Measure(t) > 0
  {
  }

  lemma MeasureOf(t: Txn, t': Txn)
    requires t' == t.(scan := t'.scan)
    ensures Measure(t') == Measure(t)
  {
  }

  lemma StartMeasure(j: Job, o: Observation)
    requires Startable(j)
    ensures var t := Begun(j, o).t; Sane(t) && Busy(t) && Measure(t) == 2 * SequenceLength(j.op) + 3
  {
  }
}
