/**
 Stage-aware cancellation of owning writes and copies. An execution is polled
 until a probe acknowledges that it is held at a gate, is dropped there, and only
 then is the gate released; whatever writer the operation still holds must end
 up aborted or in the returned failure, on every exit.
 */
module Probes {
  import opened Common
  import opened Writers

  // ---------- the order of events ----------

  datatype Event =
    | Created             // an execution future came to life
    | Polled(over: bool)   // over: it returned or panicked, and must not be polled again
    | AckPolled           // the probe was asked whether the stage is reached
    | Stopped             // the execution future was dropped
    | Released            // the gate was opened

  /** Whether an execution future exists after these events. */
  predicate Alive(trace: seq<Event>) {
    if trace == [] then false
    else match trace[|trace| - 1]
      case Created => true
      case Stopped => false
      case _ => Alive(trace[..|trace| - 1])
  }

  datatype Step = Idle | Live | AskNow | Over

  datatype Monitor = Watching(step: Step, open: bool) | Violation

  /**
   One execution at a time, never polled once ready; the stage is only asked for
   in a round that left the execution pending, and in every such round until the
   gate is open; the gate opens at most once and never while an execution is alive.
   */
  function Next(m: Monitor, e: Event): Monitor {
    if m.Violation? then m
    else match (m.step, e)
      case (Idle, Created) => m.(step := Live)
      case (Idle, Released) => if m.open then Violation else m.(open := true)
      case (Live, Polled(over)) => m.(step := if over then Over else AskNow)
      case (AskNow, Polled(over)) => if m.open then m.(step := if over then Over else AskNow) else Violation
      case (AskNow, AckPolled) => m.(step := Live)
      case (Live, Stopped) => m.(step := Idle)
      case (AskNow, Stopped) => m.(step := Idle)
      case (Over, Stopped) => m.(step := Idle)
      case _ => Violation
  }

  function Track(trace: seq<Event>): Monitor {
    if trace == [] then Watching(Idle, false) else Next(Track(trace[..|trace| - 1]), trace[|trace| - 1])
  }

  lemma {:induction false} TrackOne(trace: seq<Event>, e: Event)
    ensures Track(trace + [e]) == Next(Track(trace), e)
  {
    assert (trace + [e])[..|trace|] == trace;
  }

  lemma {:induction false} PrefixesAreWatched(trace: seq<Event>, i: nat)
    requires Track(trace).Watching? && i <= |trace|
    ensures Track(trace[..i]).Watching?
    decreases |trace| - i
  {
    if i == |trace| {
      assert trace[..i] == trace;
    } else {
      PrefixesAreWatched(trace, i + 1);
      assert trace[..i + 1] == trace[..i] + [trace[i]];
      TrackOne(trace[..i], trace[i]);
    }
  }

  /** What the monitor knows about the past. */
  lemma {:induction false} MonitorMeans(trace: seq<Event>)
    requires Track(trace).Watching?
    ensures var m := Track(trace);
            && (m.open <==> Released in trace) && (m.step.Idle? <==> !Alive(trace))
            && (m.step.AskNow? <==> trace != [] && trace[|trace| - 1] == Polled(false))
            && (m.step.Over? <==> trace != [] && trace[|trace| - 1] == Polled(true))
  {
    if trace != [] {
      MonitorMeans(trace[..|trace| - 1]);
      assert trace == trace[..|trace| - 1] + [trace[|trace| - 1]];
    }
  }

  /**
   In every watched trace: the gate never opens while an execution is alive nor a
   second time, the probe is asked only right after a poll that left execution
   pending, which is not polled again before that unless the gate is open, and
   after a poll that was ready nothing but the drop follows.
   */
  lemma {:induction false} WatchedTraceIsDisciplined(trace: seq<Event>, i: nat)
    requires Track(trace).Watching? && i < |trace|
    ensures trace[i] == Released ==> !Alive(trace[..i]) && Released !in trace[..i]
    ensures trace[i] == AckPolled ==> i > 0 && trace[i - 1] == Polled(false)
    ensures i > 0 && trace[i - 1] == Polled(false) && trace[i].Polled? ==> Released in trace[..i]
    ensures i > 0 && trace[i - 1] == Polled(true) ==> trace[i] == Stopped
    ensures trace[i] == Created ==> !Alive(trace[..i])
  {
    PrefixesAreWatched(trace, i);
    PrefixesAreWatched(trace, i + 1);
    assert trace[..i + 1] == trace[..i] + [trace[i]];
    TrackOne(trace[..i], trace[i]);
    MonitorMeans(trace[..i]);
    assert i > 0 ==> trace[..i][i - 1] == trace[i - 1];
  }

  /** A watched trace after which the guard is disarmed opened the gate exactly once. */
  lemma {:induction false} GateOpensExactlyOnce(trace: seq<Event>)
    requires Track(trace).Watching? && Track(trace).open
    ensures exists i :: && 0 <= i < |trace| && trace[i] == Released
                        && forall j | 0 <= j < |trace| && j != i :: trace[j] != Released
  {
    MonitorMeans(trace);
    var i :| 0 <= i < |trace| && trace[i] == Released;
    forall j | 0 <= j < |trace| && j != i ensures trace[j] != Released {
      WatchedTraceIsDisciplined(trace, if i < j then j else i);
      assert i < j ==> trace[..j][i] == trace[i];
      assert j < i ==> trace[..i][j] == trace[j];
    }
  }

  // ---------- operations and what they answer ----------

  datatype OperationState = ReadyToRun | FailedAs(state: FailureState) | OtherState

  datatype Snapshot = Snapshot(state: OperationState, written: nat, recovery: Option<Session>)

  datatype ExecutionPoll = StillPending | Finished | FailedRun | ExecutionPanicked

  datatype AckPoll = NotYet | AtStage | AckFailed | AckPanicked

  /** One wake-up of the future. A sequence of rounds that decides nothing ends with the future being dropped. */
  datatype Round = Round(execution: ExecutionPoll, ack: AckPoll)

  datatype Reach = Acknowledged | Completed | RunFailed | NoAcknowledgement | Interrupted

  function ReachOf(rounds: seq<Round>): Reach {
    if rounds == [] then Interrupted
    else match rounds[0].execution
      case Finished => Completed
      case FailedRun => RunFailed
      case ExecutionPanicked => Interrupted
      case StillPending =>
        match rounds[0].ack
        case NotYet => ReachOf(rounds[1..])
        case AtStage => Acknowledged
        case AckFailed => NoAcknowledgement
        case AckPanicked => Interrupted
  }

  /**
   The stage is acknowledged exactly in a round that found the execution pending, after
   rounds that decided nothing.
   */
  lemma {:induction false} AcknowledgedWhilePending(rounds: seq<Round>)
    ensures ReachOf(rounds) == Acknowledged <==>
            exists k :: 0 <= k < |rounds| && rounds[k] == Round(StillPending, AtStage)
                        && forall i | 0 <= i < k :: rounds[i] == Round(StillPending, NotYet)
  {
    if rounds != [] && rounds[0] == Round(StillPending, NotYet) {
      AcknowledgedWhilePending(rounds[1..]);
      if ReachOf(rounds) == Acknowledged {
        var k :| 0 <= k < |rounds[1..]| && rounds[1..][k] == Round(StillPending, AtStage)
                 && forall i | 0 <= i < k :: rounds[1..][i] == Round(StillPending, NotYet);
        assert rounds[k + 1] == Round(StillPending, AtStage);
        forall i | 0 <= i < k + 1 ensures rounds[i] == Round(StillPending, NotYet) {
          assert i == 0 || rounds[i] == rounds[1..][i - 1];
        }
      }
      if k :| 0 <= k < |rounds| && rounds[k] == Round(StillPending, AtStage)
              && forall i | 0 <= i < k :: rounds[i] == Round(StillPending, NotYet) {
        assert rounds[1..][k - 1] == Round(StillPending, AtStage);
        assert forall i | 0 <= i < k - 1 :: rounds[1..][i] == rounds[i + 1];
      }
    } else if rounds != [] && ReachOf(rounds) == Acknowledged {
      assert rounds[0] == Round(StillPending, AtStage);
    }
  }

  /** The first round that is not undecided decides; without one, the wait ends with the future being dropped. */
  lemma {:induction false} FirstDecisionCounts(rounds: seq<Round>, k: nat)
    requires k <= |rounds| && forall i | 0 <= i < k :: rounds[i] == Round(StillPending, NotYet)
    requires k < |rounds| ==> rounds[k] != Round(StillPending, NotYet)
    ensures k == |rounds| ==> ReachOf(rounds) == Interrupted
    ensures k < |rounds| && rounds[k].execution == Finished ==> ReachOf(rounds) == Completed
    ensures k < |rounds| && rounds[k].execution == FailedRun ==> ReachOf(rounds) == RunFailed
    ensures k < |rounds| && rounds[k].execution == ExecutionPanicked ==> ReachOf(rounds) == Interrupted
    ensures k < |rounds| && rounds[k] == Round(StillPending, AtStage) ==> ReachOf(rounds) == Acknowledged
    ensures k < |rounds| && rounds[k] == Round(StillPending, AckFailed) ==> ReachOf(rounds) == NoAcknowledgement
    ensures k < |rounds| && rounds[k] == Round(StillPending, AckPanicked) ==> ReachOf(rounds) == Interrupted
    decreases k
  {
    if k > 0 {
      assert rounds[1..][..k - 1] == rounds[1..k];
      FirstDecisionCounts(rounds[1..], k - 1);
    }
  }

  datatype DisarmReply = DisarmOk | DisarmFailed(code: int) | DisarmPanicked(payload: int)

  /** An independent observation of a file: confirmed absence, contents, or no evidence. */
  datatype Observation = Observed(contents: Option<string>) | NoEvidence | ObservationInterrupted

  /** A repeated execution of a cancelled operation: it may run again, refuse with what it reports, or never return. */
  datatype Repeat<P> =
    | RanAgain
    | Refused(invalidState: bool, state: FailureState, progress: P)
    | RepeatDropped
    | RepeatPanicked
  {
    predicate Interrupted() {
      RepeatDropped? || RepeatPanicked?
    }
  }

  datatype WriterState = WriterAborted | WriterPublished | WriterIndeterminate | OtherWriterState

  function ExpectedWriter(outcome: AbortOutcome): WriterState {
    match outcome
    case AbortNotPublished => WriterAborted
    case AbortPublished => WriterPublished
    case AbortIndeterminate => WriterIndeterminate
  }

  // ---------- results ----------

  datatype ProbeFailure =
    | Plain(reason: string)
    | WithOperation(reason: string, operation: Snapshot)
    | WithWriter(reason: string, writer: nat)
    | WithSession(reason: string, session: nat)

  datatype ProbeResult = ProbePassed | ProbeFailed(failure: ProbeFailure) | ProbeInterrupted

  /** The result hands the session back to the caller. */
  predicate Carries(result: ProbeResult, session: Session) {
    result.ProbeFailed? &&
    match result.failure
    case Plain(_) => false
    case WithOperation(_, operation) => operation.recovery == Some(session)
    case WithWriter(_, writer) => session == OpenedSession(writer)
    case WithSession(_, rejected) => session == RejectedSession(rejected)
  }

  /** The failure hands the whole operation back. */
  predicate Retains(result: ProbeResult, operation: Snapshot) {
    result.ProbeFailed? && result.failure.WithOperation? && result.failure.operation == operation
  }

  /** The session an operation was left with is neither handed back nor was its abort made to return. */
  predicate Loses(result: ProbeResult, left: Snapshot, calls: seq<AbortCall>) {
    && left.recovery.Some?
    && !Carries(result, left.recovery.value) && !Discharged(left.recovery.value, calls)
  }

  /** The session an operation was left with is either handed back or was aborted, and not both. */
  predicate HandsOver(result: ProbeResult, left: Snapshot, calls: seq<AbortCall>) {
    left.recovery.Some? ==> (Carries(result, left.recovery.value) <==> !Discharged(left.recovery.value, calls))
  }

  // ---------- the run of one probe ----------

  class ProbeRun {
    var trace: seq<Event>
    var armed: bool                  // the guard has not released the gate yet
    var faults: seq<DisarmReply>     // disarm failures kept for the cleanup report
    var alive: bool                  // an execution future exists
    var operation: Snapshot
    var aborts: seq<AbortCall>       // every abort that was called
    ghost var monitor: Monitor       // what the trace allows next

    ghost predicate Valid()
      reads this
    {
      monitor == Track(trace) && monitor.Watching? && (alive <==> !monitor.step.Idle?) && (armed <==> !monitor.open)
    }

    /** The guard is armed before anything can suspend. */
    constructor ()
      ensures Valid() && armed && !alive && faults == [] && aborts == [] && trace == []
    {
      trace, armed, faults, alive := [], true, [], false;
      operation, aborts, monitor := Snapshot(ReadyToRun, 0, None), [], Watching(Idle, false);
    }

    method Log(e: Event)
      requires monitor == Track(trace)
      modifies `trace, `monitor
      ensures trace == old(trace) + [e] && monitor == Next(old(monitor), e) && monitor == Track(trace)
    {
      TrackOne(trace, e);
      trace := trace + [e];
      monitor := Next(monitor, e);
    }

    method Start()
      requires Valid() && !alive
      modifies `trace, `alive, `monitor
      ensures Valid() && alive && monitor.step == Live
    {
      Log(Created);
      alive := true;
    }

    /** Drops the execution future; the operation is left as the provider leaves it. */
    method Stop(left: Snapshot)
      requires Valid() && alive
      modifies `trace, `alive, `operation, `monitor
      ensures Valid() && !alive && operation == left
    {
      Log(Stopped);
      alive := false;
      operation := left;
    }

    /** Releases the gate unless that was already attempted; failures and panics are kept. */
    method Disarm(reply: DisarmReply) returns (ok: bool)
      requires Valid() && (armed ==> !alive)
      modifies `trace, `armed, `faults, `monitor
      ensures Valid() && !armed
      ensures ok <==> !old(armed) || reply.DisarmOk?
      ensures faults == if ok then old(faults) else old(faults) + [reply]
    {
      if !armed {
        return true;
      }
      Open();
      if !reply.DisarmOk? {
        faults := faults + [reply];
      }
      return reply.DisarmOk?;
    }

    method Open()
      requires Valid() && armed && !alive
      modifies `trace, `armed, `monitor
      ensures Valid() && !armed
    {
      armed := false;
      Log(Released);
    }

    /** Leaving scope: later locals go first, so a live execution stops before the guard releases the gate. */
    method Unwind(left: Snapshot, reply: DisarmReply)
      requires Valid()
      modifies `trace, `alive, `operation, `armed, `faults, `monitor
      ensures Valid() && !armed && !alive
      ensures operation == (if old(alive) then left else old(operation))
      ensures faults == if old(armed) && !reply.DisarmOk? then old(faults) + [reply] else old(faults)
    {
      if alive {
        Stop(left);
      }
      var _ := Disarm(reply);
    }

    /** Polls execution, and the probe whenever execution stays pending. */
    method AwaitStage(rounds: seq<Round>) returns (reach: Reach)
      requires Valid() && alive && armed && monitor.step == Live
      modifies `trace, `monitor
      ensures Valid() && reach == ReachOf(rounds)
    {
      var rest := rounds;
      while rest != []
        invariant Valid() && monitor.step == Live && ReachOf(rest) == ReachOf(rounds)
        decreases |rest|
      {
        var round := rest[0];
        match round.execution {
          case ExecutionPanicked =>
            Log(Polled(true));
            return Interrupted;
          case Finished =>
            Log(Polled(true));
            return Completed;
          case FailedRun =>
            Log(Polled(true));
            return RunFailed;
          case StillPending =>
            Log(Polled(false));
            Log(AckPolled);
            match round.ack {
              case NotYet =>
              case AtStage => return Acknowledged;
              case AckFailed => return NoAcknowledgement;
              case AckPanicked => return Interrupted;
            }
        }
        rest := rest[1..];
      }
      return Interrupted;
    }

    /** Executes the operation once more: after some pending polls it ends, unless it is dropped first. */
    method ExecuteAgain<P>(reply: Repeat<P>, pending: nat, left: Snapshot)
      requires Valid() && !alive && !armed
      modifies `trace, `alive, `operation, `monitor
      ensures Valid() && !alive && operation == left
    {
      Start();
      for i := 0 to pending
        invariant Valid() && alive && (monitor.step.Live? || monitor.step.AskNow?)
      {
        Log(Polled(false));
      }
      if !reply.RepeatDropped? {
        Log(Polled(true));
      }
      Stop(left);
    }

    method TakeRecovery() returns (recovery: Option<Session>)
      modifies `operation
      ensures recovery == old(operation).recovery && operation == old(operation).(recovery := None)
    {
      recovery := operation.recovery;
      operation := operation.(recovery := None);
    }

    /**
     Aborts a taken writer, after its execution was stopped and the gate released.
     A returned result hands the session back unless its abort returned.
     */
    method AbortTaken(recovery: Session, reply: AbortReply, writerAfter: WriterState) returns (result: ProbeResult)
      requires !alive && !armed
      modifies `aborts
      ensures aborts == old(aborts) + CallsFor(Some(recovery), reply)
      ensures result.ProbePassed? <==> AbortsCleanly(recovery, reply, writerAfter)
      ensures result.ProbeInterrupted? <==> recovery.OpenedSession? && Unreturned(reply)
      ensures !result.ProbeInterrupted? ==>
                (Carries(result, recovery) <==> !(recovery.OpenedSession? && reply.AbortReturned?))
    {
      match recovery {
        case RejectedSession(session) =>
          return ProbeFailed(WithSession("retained a rejected provider identity", session));
        case OpenedSession(writer) =>
          aborts := aborts + [AbortCall(writer, reply)];
          match reply {
            case AbortDropped => return ProbeInterrupted;
            case AbortPanicked(_) => return ProbeInterrupted;
            case AbortFailed(_) => return ProbeFailed(WithWriter("recovery abort failed", writer));
            case AbortReturned(outcome) =>
              return if writerAfter == ExpectedWriter(outcome) then ProbePassed
                     else ProbeFailed(Plain("recovery state mismatch"));
          }
      }
    }

    /**
     Creates and drops an execution unpolled, then polls another one up to the
     stage, drops it there, and only then releases the gate. No exit means that
     the stage was acknowledged; `pristine` tells what the unpolled drop left. An
     exit after polling hands the operation back; the one before drops it.
     */
    method CancelAtStage(unpolled: Snapshot, pristine: bool, rounds: seq<Round>, stopped: Snapshot, disarm: DisarmReply)
      returns (exit: Option<ProbeResult>, disarmed: bool)
      requires Valid() && armed && !alive && faults == []
      modifies `trace, `alive, `operation, `armed, `faults, `monitor
      ensures Valid() && !armed && !alive
      ensures exit == None <==> pristine && ReachOf(rounds) == Acknowledged
      ensures exit == None ==> operation == stopped && (disarmed <==> disarm.DisarmOk?)
      ensures !pristine ==> exit.value.ProbeFailed? && exit.value.failure.Plain? && operation == unpolled
      ensures exit.Some? && pristine ==>
                if ReachOf(rounds) == Interrupted then exit.value == ProbeInterrupted else Retains(exit.value, stopped)
      ensures faults == if disarm.DisarmOk? then [] else [disarm]
    {
      Start();
      Stop(unpolled);
      if !pristine {
        Unwind(operation, disarm);
        return Some(ProbeFailed(Plain("unpolled execution changed the operation"))), false;
      }
      Start();
      var reach := AwaitStage(rounds);
      if reach.Interrupted? {
        Unwind(stopped, disarm);
        return Some(ProbeInterrupted), false;
      }
      Stop(stopped);
      disarmed := Disarm(disarm);
      var _ := Disarm(disarm);  // dropping the guard finds nothing left to release
      exit := if reach.Acknowledged? then None
              else Some(ProbeFailed(WithOperation("stage was not acknowledged", operation)));
    }

    // ---------- owning write ----------

    /**
     Judges the evidence taken after the gate was released, repeats the execution,
     and recovers. Until recovery a failure hands the whole operation back, as the
     provider last left it; from then on the session is handed back or aborted.
     */
    method JudgeWrite(stage: WriteStage, env: WriteEnv, before: Option<string>, disarmed: bool)
      returns (result: ProbeResult)
      requires Valid() && !armed && !alive && operation == env.stopped && aborts == []
      modifies `trace, `alive, `operation, `aborts, `monitor
      ensures Valid() && !alive
      ensures result.ProbePassed? <==> disarmed && WriteFactsHold(stage, env) && WriteRecoveryHolds(env, before)
      ensures result.ProbeInterrupted? <==> disarmed && WriteJudgementInterrupted(stage, env)
      ensures aborts == if disarmed && WriteFactsHold(stage, env)
                        then CallsFor(env.afterRepeat.recovery, env.abort) else []
      ensures !result.ProbeInterrupted? ==>
                if !disarmed || !StoppedWriteHolds(stage, env) then Retains(result, env.stopped)
                else if !WriteFactsHold(stage, env) then Retains(result, env.afterRepeat)
                else HandsOver(result, env.afterRepeat, aborts)
    {
      var fault := InspectWrite(stage, env, disarmed);
      if fault.Some? {
        return ProbeFailed(WithOperation(fault.value, operation));
      }
      var exit := RepeatWrite(stage, env);
      if exit.Some? {
        return exit.value;
      }
      result := RecoverWrite(env, before);
    }

    /** Compares the stopped operation with the independently observed bytes. */
    method InspectWrite(stage: WriteStage, env: WriteEnv, disarmed: bool) returns (fault: Option<string>)
      requires operation == env.stopped
      ensures fault == None <==> disarmed && StoppedWriteHolds(stage, env)
    {
      if !disarmed {
        return Some("probe disarm failed");
      }
      if env.accepted.None? {
        return Some("byte observation failed");
      }
      var accepted := env.accepted.value;
      if accepted > |env.bytes| {
        return Some("observed accepted bytes exceed the request");
      }
      if operation.state != FailedAs(Indeterminate) {
        return Some("cancellation state mismatch");
      }
      if operation.written != accepted {
        return Some("accepted byte count mismatch");
      }
      if operation.recovery.Some? != (stage != OpenStage) {
        return Some("writer recovery responsibility mismatch");
      }
      fault := None;
    }

    /** Executes the cancelled write once more; no exit means that it refused with the same facts. */
    method RepeatWrite(stage: WriteStage, env: WriteEnv) returns (exit: Option<ProbeResult>)
      requires Valid() && !armed && !alive && operation == env.stopped && StoppedWriteHolds(stage, env)
      modifies `trace, `alive, `operation, `monitor
      ensures Valid() && !alive && operation == env.afterRepeat
      ensures exit == None <==> WriteFactsHold(stage, env)
      ensures exit == Some(ProbeInterrupted) <==> env.repeated.Interrupted()
      ensures exit.Some? && exit.value != ProbeInterrupted ==> Retains(exit.value, env.afterRepeat)
    {
      ExecuteAgain(env.repeated, env.repeatPolls, env.afterRepeat);
      match env.repeated {
        case RepeatDropped => return Some(ProbeInterrupted);
        case RepeatPanicked => return Some(ProbeInterrupted);
        case RanAgain => return Some(ProbeFailed(WithOperation("cancelled write ran twice", operation)));
        case Refused(invalidState, state, written) =>
          if !invalidState || state != Indeterminate || written != env.accepted.value {
            return Some(ProbeFailed(WithOperation("repeated cancelled write lost its recovery facts", operation)));
          }
      }
      if operation.recovery.Some? != (stage != OpenStage) {
        return Some(ProbeFailed(WithOperation("repeated execution lost writer", operation)));
      }
      exit := None;
    }

    /** Aborts what the write retained and compares the target with what was observed before. */
    method RecoverWrite(env: WriteEnv, before: Option<string>) returns (result: ProbeResult)
      requires !alive && !armed && operation == env.afterRepeat && aborts == []
      modifies `operation, `aborts
      ensures aborts == CallsFor(env.afterRepeat.recovery, env.abort)
      ensures !result.ProbeInterrupted? ==> HandsOver(result, env.afterRepeat, aborts)
      ensures result.ProbePassed? <==> WriteRecoveryHolds(env, before)
      ensures result.ProbeInterrupted? <==> WriteRecoveryInterrupted(env)
    {
      var recovery := TakeRecovery();
      if recovery.None? {
        return ProbePassed;
      }
      result := AbortTaken(recovery.value, env.abort, env.writerAfter);
      DischargedExactly(recovery.value, env.abort);
      assert aborts == CallsFor(recovery, env.abort);
      if result.ProbePassed? && !env.abort.outcome.AbortIndeterminate? {
        match env.after {
          case ObservationInterrupted => return ProbeInterrupted;
          case NoEvidence => return ProbeFailed(Plain("recovery observation failed"));
          case Observed(contents) =>
            return if TargetConsistent(env.abort.outcome, before, contents) then ProbePassed
                   else ProbeFailed(Plain("recovery contradicts the target"));
        }
      }
    }

    /**
     The whole write probe. On every exit the gate was released exactly once and
     never before the execution was dropped. Once an execution was polled, a
     returned result hands back the operation as the provider last left it, or its
     session, unless that session's abort returned. A session is lost exactly when
     an execution that was never polled changed the operation and left one. The
     probe passes exactly on complete evidence.
     */
    method RunWriteProbe(stage: WriteStage, env: WriteEnv) returns (result: ProbeResult)
      requires Valid() && armed && !alive && faults == [] && aborts == []
      modifies this
      ensures Valid() && !armed && !alive
      ensures result.ProbePassed? <==> WriteEvidence(stage, env)
      ensures result.ProbePassed? && aborts != [] ==>
                && aborts[0].reply.AbortReturned?
                && var outcome := aborts[0].reply.outcome;
                   && (outcome.AbortNotPublished? ==> env.after == env.before && env.writerAfter == WriterAborted)
                   && (outcome.AbortPublished? ==>
                         env.after.Observed? && env.after.contents.Some? && env.writerAfter == WriterPublished)
                   && (outcome.AbortIndeterminate? ==> env.writerAfter == WriterIndeterminate)
      ensures result.ProbeInterrupted? <==> WriteInterrupted(stage, env)
      ensures faults == if env.disarm.DisarmOk? then [] else [env.disarm]
      ensures aborts == if WriteRecovers(stage, env) then CallsFor(env.afterRepeat.recovery, env.abort) else []
      ensures WriteAdmitted(env) && env.unpolled.state == ReadyToRun && !result.ProbeInterrupted? ==>
                if WriteRecovers(stage, env) then HandsOver(result, env.afterRepeat, aborts)
                else Retains(result, WriteLeft(stage, env))
      ensures WriteAdmitted(env) && env.unpolled.state != ReadyToRun ==> result.ProbeFailed? && result.failure.Plain?
      ensures WriteAdmitted(env) && !result.ProbeInterrupted? ==>
                (Loses(result, WriteLeft(stage, env), aborts) <==>
                 env.unpolled.state != ReadyToRun && env.unpolled.recovery.Some?)
    {
      match env.before {
        case ObservationInterrupted => Unwind(operation, env.disarm); return ProbeInterrupted;
        case NoEvidence => Unwind(operation, env.disarm); return ProbeFailed(Plain("initial observation failed"));
        case Observed(_) =>
      }
      if !env.admitted {
        Unwind(operation, env.disarm);
        return ProbeFailed(Plain("request admission failed"));
      }
      var pristine := env.unpolled.state == ReadyToRun;
      var exit, disarmed := CancelAtStage(env.unpolled, pristine, env.rounds, env.stopped, env.disarm);
      if exit.Some? {
        return exit.value;
      }
      result := JudgeWrite(stage, env, env.before.contents, disarmed);
    }

    // ---------- copy ----------

    /** Judges a cancelled copy after the gate was released, repeats it twice, and recovers. */
    method JudgeCopy(stage: CopyStage, env: CopyEnv, source: string, target: Option<string>, disarmed: bool)
      returns (result: ProbeResult)
      requires Valid() && !armed && !alive && operation == env.stopped && aborts == []
      modifies `trace, `alive, `operation, `aborts, `monitor
      ensures Valid() && !alive
      ensures result.ProbePassed? <==>
              disarmed && CopyFactsHold(stage, env, source) && CopyRecoveryHolds(env, target)
              && env.sourceAfter == Observed(Some(source))
      ensures result.ProbeInterrupted? <==> disarmed && CopyJudgementInterrupted(stage, env, source, target)
      ensures aborts == if disarmed && CopyFactsHold(stage, env, source)
                        then CallsFor(env.afterRepeatAgain.recovery, env.abort) else []
      ensures !result.ProbeInterrupted? ==>
                if !disarmed || !StoppedCopyHolds(stage, env) then Retains(result, env.stopped)
                else if !CopyFactsHold(stage, env, source) then Retains(result, CopyRepeated(env, source))
                else HandsOver(result, env.afterRepeatAgain, aborts)
    {
      var hasWriter := HasWriter(stage);
      if !disarmed {
        return ProbeFailed(WithOperation("probe disarm failed", operation));
      }
      if operation.state != FailedAs(Indeterminate) {
        return ProbeFailed(WithOperation("cancelled copy did not become indeterminate", operation));
      }
      if operation.recovery.Some? != hasWriter {
        return ProbeFailed(WithOperation("copy recovery writer responsibility differs", operation));
      }
      var exit := RepeatCopy(env, source);
      if exit.Some? {
        return exit.value;
      }
      if operation.state != FailedAs(Indeterminate) {
        return ProbeFailed(WithOperation("repeat changed cancelled copy state", operation));
      }
      if operation.recovery.Some? != hasWriter {
        return ProbeFailed(WithOperation("repeat lost copy recovery writer", operation));
      }
      result := RecoverCopy(env, source, target);
    }

    /** Executes the cancelled copy twice more; no exit means that both refusals repeat the same bounded facts. */
    method RepeatCopy(env: CopyEnv, source: string) returns (exit: Option<ProbeResult>)
      requires Valid() && !armed && !alive && operation == env.stopped
      modifies `trace, `alive, `operation, `monitor
      ensures Valid() && !alive && operation == CopyRepeated(env, source)
      ensures exit == None <==> RefusesTwice(env, source)
      ensures exit == Some(ProbeInterrupted) <==> RepeatsInterrupted(env, source)
      ensures exit.Some? && exit.value != ProbeInterrupted ==> Retains(exit.value, operation)
    {
      ExecuteAgain(env.repeated, env.repeatPolls, env.afterRepeat);
      match env.repeated {
        case RepeatDropped => return Some(ProbeInterrupted);
        case RepeatPanicked => return Some(ProbeInterrupted);
        case RanAgain => return Some(ProbeFailed(WithOperation("cancelled copy executed twice", operation)));
        case Refused(invalidState, state, stats) =>
          if !invalidState || state != Indeterminate {
            return Some(ProbeFailed(WithOperation("repeated copy lost cancellation facts", operation)));
          }
          if stats.bytes > |source| {
            return Some(ProbeFailed(WithOperation("copy progress exceeds observed source bytes", operation)));
          }
      }
      ExecuteAgain(env.repeatedAgain, env.repeatAgainPolls, env.afterRepeatAgain);
      match env.repeatedAgain {
        case RepeatDropped => return Some(ProbeInterrupted);
        case RepeatPanicked => return Some(ProbeInterrupted);
        case RanAgain => return Some(ProbeFailed(WithOperation("cancelled copy executed a third time", operation)));
        case Refused(invalidState, state, stats) =>
          if !invalidState || state != env.repeated.state || stats != env.repeated.progress {
            return Some(ProbeFailed(WithOperation("repeated copy changed retained recovery facts", operation)));
          }
      }
      exit := None;
    }

    /** Aborts what the copy retained and compares target and source with what was observed before. */
    method RecoverCopy(env: CopyEnv, source: string, target: Option<string>) returns (result: ProbeResult)
      requires !alive && !armed && operation == env.afterRepeatAgain && aborts == []
      modifies `operation, `aborts
      ensures aborts == CallsFor(env.afterRepeatAgain.recovery, env.abort)
      ensures !result.ProbeInterrupted? ==> HandsOver(result, env.afterRepeatAgain, aborts)
      ensures result.ProbePassed? <==> CopyRecoveryHolds(env, target) && env.sourceAfter == Observed(Some(source))
      ensures result.ProbeInterrupted? <==> CopyRecoveryInterrupted(env, target)
    {
      var recovery := TakeRecovery();
      if recovery.Some? {
        result := AbortTaken(recovery.value, env.abort, env.writerAfter);
        DischargedExactly(recovery.value, env.abort);
        assert aborts == CallsFor(recovery, env.abort);
        if !result.ProbePassed? {
          return result;
        }
        match env.targetAfter {
          case ObservationInterrupted => return ProbeInterrupted;
          case NoEvidence => return ProbeFailed(Plain("target observation failed"));
          case Observed(contents) =>
            if !TargetConsistent(env.abort.outcome, target, contents) {
              return ProbeFailed(Plain("copy recovery contradicts the target"));
            }
        }
      }
      match env.sourceAfter {
        case ObservationInterrupted => return ProbeInterrupted;
        case NoEvidence => return ProbeFailed(Plain("source observation failed"));
        case Observed(contents) =>
          return if contents == Some(source) then ProbePassed else ProbeFailed(Plain("cancelled copy changed source"));
      }
    }

    /** The whole copy probe, under the same obligations as the write probe. */
    method RunCopyProbe(stage: CopyStage, env: CopyEnv) returns (result: ProbeResult)
      requires Valid() && armed && !alive && faults == [] && aborts == []
      modifies this
      ensures Valid() && !armed && !alive
      ensures result.ProbePassed? <==> CopyEvidence(stage, env)
      ensures result.ProbePassed? ==> env.sourceAfter == env.sourceBefore
      ensures result.ProbePassed? && aborts != [] ==>
                && aborts[0].reply.AbortReturned? && env.targetAfter.Observed?
                && var outcome := aborts[0].reply.outcome;
                   && (outcome.AbortNotPublished? ==>
                         env.targetAfter == env.targetBefore && env.writerAfter == WriterAborted)
                   && (outcome.AbortPublished? ==>
                         env.targetAfter.contents.Some? && env.writerAfter == WriterPublished)
                   && (outcome.AbortIndeterminate? ==> env.writerAfter == WriterIndeterminate)
      ensures result.ProbeInterrupted? <==> CopyInterrupted(stage, env)
      ensures faults == if env.disarm.DisarmOk? then [] else [env.disarm]
      ensures aborts == if CopyRecovers(stage, env) then CallsFor(env.afterRepeatAgain.recovery, env.abort) else []
      ensures CopyAdmitted(env) && CopyPristine(env) && !result.ProbeInterrupted? ==>
                if CopyRecovers(stage, env) then HandsOver(result, env.afterRepeatAgain, aborts)
                else Retains(result, CopyLeft(stage, env))
      ensures CopyAdmitted(env) && !CopyPristine(env) ==> result.ProbeFailed? && result.failure.Plain?
      ensures CopyAdmitted(env) && !result.ProbeInterrupted? ==>
                (Loses(result, CopyLeft(stage, env), aborts) <==> env.unpolled.recovery.Some?)
    {
      match env.sourceBefore {
        case ObservationInterrupted => Unwind(operation, env.disarm); return ProbeInterrupted;
        case NoEvidence => Unwind(operation, env.disarm); return ProbeFailed(Plain("source observation failed"));
        case Observed(None) =>
          Unwind(operation, env.disarm);
          return ProbeFailed(Plain("copy cancellation source is absent"));
        case Observed(Some(_)) =>
      }
      match env.targetBefore {
        case ObservationInterrupted => Unwind(operation, env.disarm); return ProbeInterrupted;
        case NoEvidence => Unwind(operation, env.disarm); return ProbeFailed(Plain("target observation failed"));
        case Observed(_) =>
      }
      if !env.admitted {
        Unwind(operation, env.disarm);
        return ProbeFailed(Plain("request admission failed"));
      }
      var exit, disarmed := CancelAtStage(env.unpolled, CopyPristine(env), env.rounds, env.stopped, env.disarm);
      if exit.Some? {
        return exit.value;
      }
      result := JudgeCopy(stage, env, env.sourceBefore.contents.value, env.targetBefore.contents, disarmed);
    }
  }

  /** What an abort outcome says about the target, compared with what was observed before. */
  predicate TargetConsistent(outcome: AbortOutcome, before: Option<string>, after: Option<string>) {
    match outcome
    case AbortNotPublished => after == before
    case AbortPublished => after.Some?
    case AbortIndeterminate => true
  }

  lemma {:induction false} DischargedExactly(session: Session, reply: AbortReply)
    ensures Discharged(session, CallsFor(Some(session), reply)) <==> session.OpenedSession? && reply.AbortReturned?
  {
    if session.OpenedSession? {
      assert CallsFor(Some(session), reply)[0] in CallsFor(Some(session), reply);
    }
  }

  // ---------- complete evidence ----------

  datatype WriteStage = OpenStage | WriteStage | FlushStage | CommitStage

  /** Everything fixture and provider answer during one write probe. */
  datatype WriteEnv = WriteEnv(
    bytes: string, before: Observation, admitted: bool, unpolled: Snapshot, rounds: seq<Round>,
    stopped: Snapshot, disarm: DisarmReply, accepted: Option<nat>,
    repeated: Repeat<nat>, repeatPolls: nat, afterRepeat: Snapshot,
    abort: AbortReply, writerAfter: WriterState, after: Observation)

  /** The cancelled write reports the independently observed bytes and keeps a writer past the open stage. */
  predicate StoppedWriteHolds(stage: WriteStage, env: WriteEnv) {
    && env.accepted.Some? && env.accepted.value <= |env.bytes|
    && env.stopped.state == FailedAs(Indeterminate) && env.stopped.written == env.accepted.value
    && (env.stopped.recovery.Some? <==> stage != OpenStage)
  }

  /** It refuses to run again, with the same facts. */
  predicate WriteFactsHold(stage: WriteStage, env: WriteEnv) {
    && StoppedWriteHolds(stage, env)
    && env.repeated == Refused(true, Indeterminate, env.accepted.value)
    && (env.afterRepeat.recovery.Some? <==> stage != OpenStage)
  }

  /** The retained writer aborts, into the state it reports, consistently with the target. */
  predicate AbortsCleanly(recovery: Session, abort: AbortReply, writerAfter: WriterState) {
    recovery.OpenedSession? && abort.AbortReturned? && writerAfter == ExpectedWriter(abort.outcome)
  }

  /** An awaited abort that was dropped or unwound. */
  predicate Unreturned(abort: AbortReply) {
    abort.AbortDropped? || abort.AbortPanicked?
  }

  predicate WriteRecoveryHolds(env: WriteEnv, before: Option<string>) {
    env.afterRepeat.recovery.Some? ==>
      && AbortsCleanly(env.afterRepeat.recovery.value, env.abort, env.writerAfter)
      && (!env.abort.outcome.AbortIndeterminate? ==>
            env.after.Observed? && TargetConsistent(env.abort.outcome, before, env.after.contents))
  }

  // How far a write probe gets.

  predicate WriteAdmitted(env: WriteEnv) {
    env.before.Observed? && env.admitted
  }

  predicate WriteRepeats(stage: WriteStage, env: WriteEnv) {
    && WriteAdmitted(env) && env.unpolled.state == ReadyToRun
    && ReachOf(env.rounds) == Acknowledged && env.disarm.DisarmOk? && StoppedWriteHolds(stage, env)
  }

  predicate WriteRecovers(stage: WriteStage, env: WriteEnv) {
    WriteRepeats(stage, env) && WriteFactsHold(stage, env)
  }

  /** The operation as the provider left it after the last execution the probe made. */
  function WriteLeft(stage: WriteStage, env: WriteEnv): Snapshot {
    if env.unpolled.state != ReadyToRun then env.unpolled
    else if !WriteRepeats(stage, env) then env.stopped
    else env.afterRepeat
  }

  predicate WriteEvidence(stage: WriteStage, env: WriteEnv) {
    WriteRecovers(stage, env) && WriteRecoveryHolds(env, env.before.contents)
  }

  // The probe returns unless the one that awaits it is dropped, or unwinds, while something is pending.

  predicate WriteRecoveryInterrupted(env: WriteEnv) {
    && env.afterRepeat.recovery.Some? && env.afterRepeat.recovery.value.OpenedSession?
    && (Unreturned(env.abort)
        || (AbortsCleanly(env.afterRepeat.recovery.value, env.abort, env.writerAfter)
            && !env.abort.outcome.AbortIndeterminate?
            && env.after.ObservationInterrupted?))
  }

  predicate WriteJudgementInterrupted(stage: WriteStage, env: WriteEnv) {
    && StoppedWriteHolds(stage, env)
    && (env.repeated.Interrupted() || (WriteFactsHold(stage, env) && WriteRecoveryInterrupted(env)))
  }

  predicate WriteInterrupted(stage: WriteStage, env: WriteEnv) {
    || env.before.ObservationInterrupted?
    || (WriteAdmitted(env) && env.unpolled.state == ReadyToRun && ReachOf(env.rounds) == Interrupted)
    || (WriteRepeats(stage, env) && WriteJudgementInterrupted(stage, env))
  }

  datatype CopyStage = NativeAttemptStage | ReaderStage | WriterStage | CommitCopyStage

  predicate HasWriter(stage: CopyStage) {
    stage.WriterStage? || stage.CommitCopyStage?
  }

  datatype Stats = Stats(bytes: nat, entries: nat)

  datatype CopyEnv = CopyEnv(
    sourceBefore: Observation, targetBefore: Observation, admitted: bool, unpolled: Snapshot, rounds: seq<Round>,
    stopped: Snapshot, disarm: DisarmReply,
    repeated: Repeat<Stats>, repeatPolls: nat, afterRepeat: Snapshot,
    repeatedAgain: Repeat<Stats>, repeatAgainPolls: nat, afterRepeatAgain: Snapshot,
    abort: AbortReply, writerAfter: WriterState, targetAfter: Observation, sourceAfter: Observation)

  /** The cancelled copy stays indeterminate and keeps a writer once its stage has one. */
  predicate StoppedCopyHolds(stage: CopyStage, env: CopyEnv) {
    env.stopped.state == FailedAs(Indeterminate) && (env.stopped.recovery.Some? <==> HasWriter(stage))
  }

  predicate RefusesOnce(env: CopyEnv, source: string) {
    && env.repeated.Refused? && env.repeated.progress.bytes <= |source|
    && env.repeated == Refused(true, Indeterminate, env.repeated.progress)
  }

  predicate RefusesTwice(env: CopyEnv, source: string) {
    RefusesOnce(env, source) && env.repeatedAgain == env.repeated
  }

  /** The cancelled copy stays indeterminate and reports the same bounded progress each time. */
  predicate CopyFactsHold(stage: CopyStage, env: CopyEnv, source: string) {
    && StoppedCopyHolds(stage, env) && RefusesTwice(env, source)
    && env.afterRepeatAgain.state == FailedAs(Indeterminate)
    && (env.afterRepeatAgain.recovery.Some? <==> HasWriter(stage))
  }

  /** The operation after the repeated executions: the second is only made once the first refused as it should. */
  function CopyRepeated(env: CopyEnv, source: string): Snapshot {
    if RefusesOnce(env, source) then env.afterRepeatAgain else env.afterRepeat
  }

  predicate CopyRecoveryHolds(env: CopyEnv, target: Option<string>) {
    env.afterRepeatAgain.recovery.Some? ==>
      && AbortsCleanly(env.afterRepeatAgain.recovery.value, env.abort, env.writerAfter)
      && env.targetAfter.Observed? && TargetConsistent(env.abort.outcome, target, env.targetAfter.contents)
  }

  predicate RepeatsInterrupted(env: CopyEnv, source: string) {
    env.repeated.Interrupted() || (RefusesOnce(env, source) && env.repeatedAgain.Interrupted())
  }

  predicate CopyRecoveryInterrupted(env: CopyEnv, target: Option<string>) {
    var recovery := env.afterRepeatAgain.recovery;
    || (recovery.Some? && recovery.value.OpenedSession?
        && (Unreturned(env.abort)
            || (AbortsCleanly(recovery.value, env.abort, env.writerAfter) && env.targetAfter.ObservationInterrupted?)))
    || (CopyRecoveryHolds(env, target) && env.sourceAfter.ObservationInterrupted?)
  }

  predicate CopyJudgementInterrupted(stage: CopyStage, env: CopyEnv, source: string, target: Option<string>) {
    && StoppedCopyHolds(stage, env)
    && (RepeatsInterrupted(env, source) || (CopyFactsHold(stage, env, source) && CopyRecoveryInterrupted(env, target)))
  }

  // How far a copy probe gets.

  predicate CopyAdmitted(env: CopyEnv) {
    env.sourceBefore.Observed? && env.sourceBefore.contents.Some? && env.targetBefore.Observed? && env.admitted
  }

  predicate CopyPristine(env: CopyEnv) {
    env.unpolled.state == ReadyToRun && env.unpolled.recovery == None
  }

  predicate CopyReached(env: CopyEnv) {
    CopyAdmitted(env) && CopyPristine(env) && ReachOf(env.rounds) == Acknowledged && env.disarm.DisarmOk?
  }

  predicate CopyRecovers(stage: CopyStage, env: CopyEnv) {
    CopyReached(env) && CopyFactsHold(stage, env, env.sourceBefore.contents.value)
  }

  /** The operation as the provider left it after the last execution the probe made. */
  function CopyLeft(stage: CopyStage, env: CopyEnv): Snapshot
    requires CopyAdmitted(env)
  {
    if !CopyPristine(env) then env.unpolled
    else if !CopyReached(env) || !StoppedCopyHolds(stage, env) then env.stopped
    else CopyRepeated(env, env.sourceBefore.contents.value)
  }

  predicate CopyInterrupted(stage: CopyStage, env: CopyEnv) {
    || env.sourceBefore.ObservationInterrupted?
    || (env.sourceBefore.Observed? && env.sourceBefore.contents.Some? && env.targetBefore.ObservationInterrupted?)
    || (CopyAdmitted(env) && CopyPristine(env) && ReachOf(env.rounds) == Interrupted)
    || (CopyReached(env)
        && CopyJudgementInterrupted(stage, env, env.sourceBefore.contents.value, env.targetBefore.contents))
  }

  predicate CopyEvidence(stage: CopyStage, env: CopyEnv) {
    && CopyRecovers(stage, env) && CopyRecoveryHolds(env, env.targetBefore.contents)
    && env.sourceAfter == env.sourceBefore
  }

  // ---------- a lost session ----------

  /** An execution that is never polled leaves a writer behind and fails the operation. */
  const LOSING := WriteEnv(
    "", Observed(None), true, Snapshot(FailedAs(Indeterminate), 0, Some(OpenedSession(0))), [],
    Snapshot(ReadyToRun, 0, None), DisarmOk, None, RanAgain, 0, Snapshot(ReadyToRun, 0, None),
    AbortReturned(AbortNotPublished), WriterAborted, NoEvidence)

  /** The write probe then returns, and neither hands the writer back nor has it aborted. */
  method LoseSession(stage: WriteStage) returns (result: ProbeResult, calls: seq<AbortCall>)
    ensures !result.ProbeInterrupted? && Loses(result, WriteLeft(stage, LOSING), calls)
  {
    var run := new ProbeRun();
    result := run.RunWriteProbe(stage, LOSING);
    calls := run.aborts;
  }
}
