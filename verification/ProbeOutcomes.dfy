/**
 When the cancellation probes pass, in terms of what provider and fixture answer:
 which answers are needed, which suffice, and what decides between them.
 */
module ProbeOutcomes {
  import opened Common
  import opened Writers
  import opened Probes

  /** The stage is acknowledged while the execution is pending, after rounds that decide nothing. */
  ghost predicate StageReached(rounds: seq<Round>) {
    exists k :: 0 <= k < |rounds| && rounds[k] == Round(StillPending, AtStage)
                && forall i | 0 <= i < k :: rounds[i] == Round(StillPending, NotYet)
  }

  /** The target as first observed and as it is later, after an abort with this outcome. */
  predicate TargetAgrees(outcome: AbortOutcome, before: Observation, after: Observation) {
    match outcome
    case AbortNotPublished => before == after
    case AbortPublished => after.Observed? && after.contents != None
    case AbortIndeterminate => true
  }

  predicate WriterAgrees(outcome: AbortOutcome, writer: WriterState) {
    match outcome
    case AbortNotPublished => writer.WriterAborted?
    case AbortPublished => writer.WriterPublished?
    case AbortIndeterminate => writer.WriterIndeterminate?
  }

  // ---------- write ----------

  /** The provider holds the write at the stage, and the cancelled write reports the bytes it accepted, each time. */
  ghost predicate HoldsWrite(stage: WriteStage, env: WriteEnv) {
    && env.before.Observed? && env.admitted && env.unpolled.state == ReadyToRun
    && StageReached(env.rounds) && env.disarm.DisarmOk?
    && (exists n :: env.accepted == Some(n) && n <= |env.bytes| && env.stopped.written == n
                    && env.repeated == Refused(true, Indeterminate, n))
    && env.stopped.state == FailedAs(Indeterminate)
    && (env.stopped.recovery == None <==> stage == OpenStage)
    && (env.afterRepeat.recovery == None <==> stage == OpenStage)
  }

  /**
   A write probe passes exactly when the provider holds the write at its stage and,
   past the open stage, the retained writer's abort returns, the writer is then in the
   state that the outcome names, and the target agrees with the outcome.
   */
  lemma {:induction false} WritePassesIff(stage: WriteStage, env: WriteEnv)
    ensures WriteEvidence(stage, env) <==>
            && HoldsWrite(stage, env)
            && (stage != OpenStage ==>
                  && env.afterRepeat.recovery.value.OpenedSession? && env.abort.AbortReturned?
                  && WriterAgrees(env.abort.outcome, env.writerAfter)
                  && TargetAgrees(env.abort.outcome, env.before, env.after))
  {
    AcknowledgedWhilePending(env.rounds);
    if WriteEvidence(stage, env) {
      assert env.accepted == Some(env.accepted.value);
    }
  }

  /** A provider that holds the write, keeps a valid writer, and tells the truth about it. */
  ghost predicate HonestWrite(stage: WriteStage, env: WriteEnv) {
    && HoldsWrite(stage, env) && stage != OpenStage && env.afterRepeat.recovery.value.OpenedSession?
    && env.abort.AbortReturned? && WriterAgrees(env.abort.outcome, env.writerAfter) && env.after.Observed?
  }

  /** Against an honest provider the target alone decides: unchanged, present, or anything, as the abort says. */
  lemma {:induction false} TargetDecidesWrite(stage: WriteStage, env: WriteEnv)
    requires HonestWrite(stage, env)
    ensures env.abort.outcome == AbortNotPublished ==>
              (WriteEvidence(stage, env) <==> env.after.contents == env.before.contents)
    ensures env.abort.outcome == AbortPublished ==> (WriteEvidence(stage, env) <==> env.after.contents.Some?)
    ensures env.abort.outcome == AbortIndeterminate ==> WriteEvidence(stage, env)
  {
    WritePassesIff(stage, env);
  }

  /** Nothing that a write probe awaits is dropped or panics, and some round decides. */
  ghost predicate WriteUndisturbed(env: WriteEnv) {
    && !env.before.ObservationInterrupted? && !env.after.ObservationInterrupted?
    && !env.repeated.RepeatDropped? && !env.repeated.RepeatPanicked?
    && !env.abort.AbortDropped? && !env.abort.AbortPanicked? && RoundsDecide(env.rounds)
  }

  ghost predicate RoundsDecide(rounds: seq<Round>) {
    exists k :: 0 <= k < |rounds| && Decides(rounds[k])
                && forall i | 0 <= i < k :: rounds[i] == Round(StillPending, NotYet)
  }

  predicate Decides(round: Round) {
    || round.execution.Finished? || round.execution.FailedRun?
    || (round.execution.StillPending? && (round.ack.AtStage? || round.ack.AckFailed?))
  }

  lemma {:induction false} DecidedRoundsReturn(rounds: seq<Round>)
    requires RoundsDecide(rounds)
    ensures ReachOf(rounds) != Interrupted
  {
    var k :| 0 <= k < |rounds| && Decides(rounds[k])
             && forall i | 0 <= i < k :: rounds[i] == Round(StillPending, NotYet);
    FirstDecisionCounts(rounds, k);
  }

  /** A probe that nothing disturbs returns a verdict. */
  lemma {:induction false} UndisturbedWriteReturns(stage: WriteStage, env: WriteEnv)
    requires WriteUndisturbed(env)
    ensures !WriteInterrupted(stage, env)
  {
    DecidedRoundsReturn(env.rounds);
  }

  // ---------- copy ----------

  /** The provider holds the copy at the stage, and the cancelled copy reports the same bounded progress twice. */
  ghost predicate HoldsCopy(stage: CopyStage, env: CopyEnv) {
    && (exists text :: env.sourceBefore == Observed(Some(text)) && env.repeated.Refused?
                       && env.repeated.progress.bytes <= |text|)
    && env.targetBefore.Observed? && env.admitted
    && env.unpolled.state == ReadyToRun && env.unpolled.recovery == None
    && StageReached(env.rounds) && env.disarm.DisarmOk?
    && env.repeated.invalidState && env.repeated.state == Indeterminate && env.repeatedAgain == env.repeated
    && env.stopped.state == FailedAs(Indeterminate) && env.afterRepeatAgain.state == FailedAs(Indeterminate)
    && (env.stopped.recovery == None <==> stage in {NativeAttemptStage, ReaderStage})
    && (env.afterRepeatAgain.recovery == None <==> stage in {NativeAttemptStage, ReaderStage})
  }

  /**
   A copy probe passes exactly when the provider holds the copy at its stage, the source
   is afterwards as it was, and, at the stages with a writer, its abort returns, the
   writer is then in the state that the outcome names, and the target was observed and
   agrees with the outcome.
   */
  lemma {:induction false} CopyPassesIff(stage: CopyStage, env: CopyEnv)
    ensures CopyEvidence(stage, env) <==>
            && HoldsCopy(stage, env) && env.sourceAfter == env.sourceBefore
            && (stage in {WriterStage, CommitCopyStage} ==>
                  && env.afterRepeatAgain.recovery.value.OpenedSession? && env.abort.AbortReturned?
                  && WriterAgrees(env.abort.outcome, env.writerAfter) && env.targetAfter.Observed?
                  && TargetAgrees(env.abort.outcome, env.targetBefore, env.targetAfter))
  {
    AcknowledgedWhilePending(env.rounds);
    if CopyEvidence(stage, env) {
      assert env.sourceBefore == Observed(Some(env.sourceBefore.contents.value));
    }
  }

  ghost predicate HonestCopy(stage: CopyStage, env: CopyEnv) {
    && HoldsCopy(stage, env) && stage in {WriterStage, CommitCopyStage}
    && env.afterRepeatAgain.recovery.value.OpenedSession? && env.abort.AbortReturned?
    && WriterAgrees(env.abort.outcome, env.writerAfter) && env.targetAfter.Observed?
    && env.sourceAfter == env.sourceBefore
  }

  lemma {:induction false} TargetDecidesCopy(stage: CopyStage, env: CopyEnv)
    requires HonestCopy(stage, env)
    ensures env.abort.outcome == AbortNotPublished ==>
              (CopyEvidence(stage, env) <==> env.targetAfter.contents == env.targetBefore.contents)
    ensures env.abort.outcome == AbortPublished ==> (CopyEvidence(stage, env) <==> env.targetAfter.contents.Some?)
    ensures env.abort.outcome == AbortIndeterminate ==> CopyEvidence(stage, env)
  {
    CopyPassesIff(stage, env);
  }

  ghost predicate CopyUndisturbed(env: CopyEnv) {
    && !env.sourceBefore.ObservationInterrupted? && !env.targetBefore.ObservationInterrupted?
    && !env.sourceAfter.ObservationInterrupted? && !env.targetAfter.ObservationInterrupted?
    && !env.repeated.RepeatDropped? && !env.repeated.RepeatPanicked?
    && !env.repeatedAgain.RepeatDropped? && !env.repeatedAgain.RepeatPanicked?
    && !env.abort.AbortDropped? && !env.abort.AbortPanicked? && RoundsDecide(env.rounds)
  }

  lemma {:induction false} UndisturbedCopyReturns(stage: CopyStage, env: CopyEnv)
    requires CopyUndisturbed(env)
    ensures !CopyInterrupted(stage, env)
  {
    DecidedRoundsReturn(env.rounds);
  }

  // ---------- interruptions ----------

  /** Nothing decides among the rounds, or the first that decides is a panic. */
  ghost predicate RoundsBreak(rounds: seq<Round>) {
    exists k :: 0 <= k <= |rounds|
                && (k == |rounds| || rounds[k].execution.ExecutionPanicked?
                    || rounds[k] == Round(StillPending, AckPanicked))
                && forall i | 0 <= i < k :: rounds[i] == Round(StillPending, NotYet)
  }

  lemma {:induction false} RoundsBreakIff(rounds: seq<Round>)
    ensures ReachOf(rounds) == Interrupted <==> RoundsBreak(rounds)
  {
    var k := FirstDecision(rounds);
    FirstDecisionCounts(rounds, k);
    if ReachOf(rounds) == Interrupted {
      assert k == |rounds| || rounds[k].execution.ExecutionPanicked? || rounds[k] == Round(StillPending, AckPanicked);
    }
    if RoundsBreak(rounds) {
      var j :| 0 <= j <= |rounds|
               && (j == |rounds| || rounds[j].execution.ExecutionPanicked?
                   || rounds[j] == Round(StillPending, AckPanicked))
               && forall i | 0 <= i < j :: rounds[i] == Round(StillPending, NotYet);
      FirstDecisionCounts(rounds, j);
    }
  }

  lemma {:induction false} FirstDecision(rounds: seq<Round>) returns (k: nat)
    ensures k <= |rounds| && forall i | 0 <= i < k :: rounds[i] == Round(StillPending, NotYet)
    ensures k < |rounds| ==> rounds[k] != Round(StillPending, NotYet)
  {
    k := 0;
    while k < |rounds| && rounds[k] == Round(StillPending, NotYet)
      invariant k <= |rounds| && forall i | 0 <= i < k :: rounds[i] == Round(StillPending, NotYet)
    {
      k := k + 1;
    }
  }

  /** What a write probe awaits when it is dropped or panics, in the order in which it gets there. */
  ghost predicate WriteBreaks(stage: WriteStage, env: WriteEnv) {
    var started := env.before.Observed? && env.admitted && env.unpolled.state == ReadyToRun;
    var accepted := env.accepted.Some? && env.accepted.value <= |env.bytes|
                    && env.stopped.written == env.accepted.value;
    var stopped := env.stopped.state == FailedAs(Indeterminate)
                   && (env.stopped.recovery == None <==> stage == OpenStage);
    var aborts := HoldsWrite(stage, env) && stage != OpenStage && env.afterRepeat.recovery.value.OpenedSession?;
    || env.before.ObservationInterrupted?
    || (started && RoundsBreak(env.rounds))
    || (started && StageReached(env.rounds) && env.disarm.DisarmOk? && accepted && stopped
        && (env.repeated.RepeatDropped? || env.repeated.RepeatPanicked?))
    || (aborts && (env.abort.AbortDropped? || env.abort.AbortPanicked?))
    || (aborts && env.abort.AbortReturned? && !env.abort.outcome.AbortIndeterminate?
        && WriterAgrees(env.abort.outcome, env.writerAfter) && env.after.ObservationInterrupted?)
  }

  /** A write probe fails to return exactly when what it awaits is dropped or panics. */
  lemma {:induction false} WriteInterruptedIff(stage: WriteStage, env: WriteEnv)
    ensures WriteInterrupted(stage, env) <==> WriteBreaks(stage, env)
  {
    AcknowledgedWhilePending(env.rounds);
    RoundsBreakIff(env.rounds);
    if WriteInterrupted(stage, env) && env.accepted.Some? {
      assert env.accepted == Some(env.accepted.value);
    }
  }

  ghost predicate CopyBreaks(stage: CopyStage, env: CopyEnv) {
    var sourced := env.sourceBefore.Observed? && env.sourceBefore.contents.Some?;
    var started := sourced && env.targetBefore.Observed? && env.admitted
                   && env.unpolled.state == ReadyToRun && env.unpolled.recovery == None;
    var stopped := started && StageReached(env.rounds) && env.disarm.DisarmOk?
                   && env.stopped.state == FailedAs(Indeterminate)
                   && (env.stopped.recovery == None <==> stage in {NativeAttemptStage, ReaderStage});
    var writes := HoldsCopy(stage, env) && stage in {WriterStage, CommitCopyStage};
    var aborts := writes && env.afterRepeatAgain.recovery.value.OpenedSession?;
    var agrees := aborts && env.abort.AbortReturned? && WriterAgrees(env.abort.outcome, env.writerAfter);
    || env.sourceBefore.ObservationInterrupted?
    || (sourced && env.targetBefore.ObservationInterrupted?)
    || (started && RoundsBreak(env.rounds))
    || (stopped && (env.repeated.RepeatDropped? || env.repeated.RepeatPanicked?))
    || (stopped && env.repeated.Refused? && env.repeated.invalidState && env.repeated.state == Indeterminate
        && env.repeated.progress.bytes <= |env.sourceBefore.contents.value|
        && (env.repeatedAgain.RepeatDropped? || env.repeatedAgain.RepeatPanicked?))
    || (aborts && (env.abort.AbortDropped? || env.abort.AbortPanicked?))
    || (agrees && env.targetAfter.ObservationInterrupted?)
    || (HoldsCopy(stage, env) && !writes && env.sourceAfter.ObservationInterrupted?)
    || (agrees && env.targetAfter.Observed? && TargetAgrees(env.abort.outcome, env.targetBefore, env.targetAfter)
        && env.sourceAfter.ObservationInterrupted?)
  }

  /** A copy probe fails to return exactly when what it awaits is dropped or panics. */
  lemma {:induction false} CopyInterruptedIff(stage: CopyStage, env: CopyEnv)
    ensures CopyInterrupted(stage, env) <==> CopyBreaks(stage, env)
  {
    AcknowledgedWhilePending(env.rounds);
    RoundsBreakIff(env.rounds);
    if CopyInterrupted(stage, env) && env.sourceBefore.Observed? && env.sourceBefore.contents.Some? {
      assert env.sourceBefore == Observed(Some(env.sourceBefore.contents.value));
    }
  }
}
