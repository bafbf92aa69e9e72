/**
 Who holds a retained failure: the guard around an awaited cleanup, the run's
 failure list, or a caller that took it.
 */
module Ownership {
  import opened Common
  import opened StableSorting
  import opened Writers
  import opened WriteLimits

  /** The run's failure list, as far as it owns retained failures. */
  class FailureLog<F> {
    var owned: seq<(CheckId, F)>

    constructor ()
      ensures owned == []
    {
      owned := [];
    }
  }

  /** Who holds a guarded failure: the guard, the list under a check, or the caller that finished the guard. */
  datatype Holders<F> = Holders(guard: Option<F>, log: seq<(CheckId, F)>, caller: Option<F>)

  datatype GuardStep = Finishing | Dropping

  /** Finishing hands the failure to the caller, dropping hands it to the list, and an empty guard does nothing. */
  function GuardMoves<F>(h: Holders<F>, id: CheckId, step: GuardStep): Holders<F> {
    if h.guard.None? then h
    else if step.Finishing? then Holders(None, h.log, h.guard)
    else Holders(None, h.log + [(id, h.guard.value)], h.caller)
  }

  /** Exactly one of guard, list and caller holds `f`, and the list is otherwise as it was. */
  predicate OneHolder<F(==)>(h: Holders<F>, f: F, id: CheckId, before: seq<(CheckId, F)>) {
    h in {Holders(Some(f), before, None), Holders(None, before + [(id, f)], None), Holders(None, before, Some(f))}
  }

  /** Holds a failure while its cleanup is awaited; dropping the guard hands the failure to the list. */
  class ExpectedWriteCleanupGuard<F(==)> {
    var failure: Option<F>
    const failures: FailureLog<F>
    const id: CheckId
    ghost const guarded: F                     // the failure it was made for
    ghost const before: seq<(CheckId, F)>      // the list when it was made

    /** The holders, seen together with the place of the caller that may finish the guard. */
    function View(caller: Option<F>): Holders<F>
      reads this, failures
    {
      Holders(failure, failures.owned, caller)
    }

    /** Exactly one of guard, list and caller holds the guarded failure. */
    ghost predicate Valid(caller: Option<F>)
      reads this, failures
    {
      OneHolder(View(caller), guarded, id, before)
    }

    constructor (failure: F, failures: FailureLog<F>, id: CheckId)
      ensures Valid(None) && this.failure == Some(failure)
      ensures this.failures == failures && this.id == id && guarded == failure && before == failures.owned
    {
      this.failure, this.failures, this.id := Some(failure), failures, id;
      guarded, before := failure, failures.owned;
    }

    /** Gives the failure back; the drop that follows finds nothing to report. */
    method Finish() returns (f: F)
      requires Valid(None) && failure.Some?
      modifies this, failures
      ensures Valid(Some(f)) && View(Some(f)) == GuardMoves(old(View(None)), id, Finishing)
    {
      f := failure.value;
      failure := None;
      Drop(Some(f));
    }

    method Drop(ghost caller: Option<F>)
      requires Valid(caller)
      modifies this, failures
      ensures Valid(caller) && View(caller) == GuardMoves(old(View(caller)), id, Dropping)
    {
      if failure.Some? {
        failures.owned := failures.owned + [(id, failure.value)];
        failure := None;
      }
    }
  }

  // ---------- the awaited cleanup of an expected rejection ----------

  datatype AsyncRejection = Settled | Returned(failure: WriteFailure) | HandedOver

  /** An expected rejection, the check it belongs to, and how its writer's awaited abort ends. */
  datatype Rejection = Rejection(failure: WriteFailure, id: CheckId, abort: AbortReply)

  /** The abort is dropped or panics while the guard holds the failure. */
  predicate Abandoned(c: Rejection) {
    && c.failure.recovery.Some? && c.failure.recovery.value.OpenedSession? && ClaimsNothingPublished(c.failure)
    && (c.abort.AbortDropped? || c.abort.AbortPanicked?)
  }

  /** Where a rejected write ends up. */
  function Settlement(c: Rejection): AsyncRejection {
    if Abandoned(c) then HandedOver
    else if CleanRejection(c.failure, c.abort) then Settled
    else Returned(c.failure)
  }

  function Logged(log: seq<(CheckId, WriteFailure)>, c: Rejection): seq<(CheckId, WriteFailure)> {
    if Abandoned(c) then log + [(c.id, c.failure)] else log
  }

  /**
   Cleans up behind an expected rejection. Whatever way it leaves, the failure is
   in exactly one place: with the caller, in the list under its check, or gone
   after a settlement that left no session without an abort that returned.
   */
  method FinishExpectedAsyncWriteFailure(c: Rejection, failures: FailureLog<WriteFailure>)
    returns (r: AsyncRejection, calls: seq<AbortCall>)
    modifies failures
    ensures r == Settlement(c) && failures.owned == Logged(old(failures.owned), c)
    ensures r.HandedOver? <==>
              && c.failure.recovery.Some? && c.failure.recovery.value.OpenedSession?
              && c.failure.state in {NotPublished, RetryableNotPublished}
              && (c.abort.AbortDropped? || c.abort.AbortPanicked?)
    ensures r.Settled? <==>
              || c.failure.recovery == None
              || (c.failure.recovery.value.OpenedSession? && c.failure.state in {NotPublished, RetryableNotPublished}
                  && c.abort == AbortReturned(AbortNotPublished))
    ensures r.Returned? ==> r.failure == c.failure
    ensures failures.owned == old(failures.owned) + if r.HandedOver? then [(c.id, c.failure)] else []
    ensures calls == if ClaimsNothingPublished(c.failure) then CallsFor(c.failure.recovery, c.abort) else []
    ensures r.Settled? && c.failure.recovery.Some? ==> Discharged(c.failure.recovery.value, calls)
  {
    calls := [];
    if c.failure.recovery.None? {
      return Settled, calls;
    }
    if !c.failure.state.NotPublished? && !c.failure.state.RetryableNotPublished? {
      return Returned(c.failure), calls;
    }
    var guard := new ExpectedWriteCleanupGuard(c.failure, failures, c.id);
    match c.failure.recovery.value {
      case RejectedSession(_) =>
        var back := guard.Finish();
        return Returned(back), calls;
      case OpenedSession(writer) =>
        calls := [AbortCall(writer, c.abort)];
        assert calls[0] in calls;
        if c.abort.AbortDropped? || c.abort.AbortPanicked? {
          guard.Drop(None);
          return HandedOver, calls;
        }
        var back := guard.Finish();
        r := if c.abort == AbortReturned(AbortNotPublished) then Settled else Returned(back);
    }
  }

  // ---------- whole lives and whole sessions ----------

  function GuardLife<F>(h: Holders<F>, id: CheckId, steps: seq<GuardStep>): Holders<F>
    decreases |steps|
  {
    if steps == [] then h else GuardLife(GuardMoves(h, id, steps[0]), id, steps[1..])
  }

  /** At every moment of a guard's life exactly one of guard, list and caller holds the failure. */
  lemma {:induction false} OneOwner<F>(h: Holders<F>, f: F, id: CheckId, before: seq<(CheckId, F)>,
                                       steps: seq<GuardStep>)
    requires OneHolder(h, f, id, before)
    ensures OneHolder(GuardLife(h, id, steps), f, id, before)
    ensures h.guard.None? ==> GuardLife(h, id, steps) == h
    decreases |steps|
  {
    if steps != [] {
      OneOwner(GuardMoves(h, id, steps[0]), f, id, before, steps[1..]);
    }
  }

  /**
   The expected rejections of a session, one check after the other. The first one
   that is handed over ends the session, so every earlier one is settled or with its
   caller, and the list gains at most the last one served.
   */
  method ServeRejections(run: seq<Rejection>, failures: FailureLog<WriteFailure>)
    returns (results: seq<AsyncRejection>)
    modifies failures
    ensures |results| <= |run| && forall i | 0 <= i < |results| :: results[i] == Settlement(run[i])
    ensures forall i | 0 <= i < |results| - 1 :: !results[i].HandedOver?
    ensures |results| < |run| ==> results != [] && results[|results| - 1].HandedOver?
    ensures failures.owned == old(failures.owned) +
              if results != [] && results[|results| - 1].HandedOver?
              then [(run[|results| - 1].id, run[|results| - 1].failure)] else []
  {
    results := [];
    while |results| < |run|
      invariant |results| <= |run| && failures.owned == old(failures.owned)
      invariant forall i | 0 <= i < |results| :: results[i] == Settlement(run[i]) && !results[i].HandedOver?
    {
      var c := run[|results|];
      var r, calls := FinishExpectedAsyncWriteFailure(c, failures);
      results := results + [r];
      if r.HandedOver? {
        return results;
      }
    }
  }

  // ---------- one-shot sources ----------

  /** A retained error behind a lock: each call runs alone. */
  class ContractSource<E> {
    var error: Option<E>

    constructor (error: E)
      ensures this.error == Some(error)
    {
      this.error := Some(error);
    }

    method Inspect<T>(inspect: E -> T) returns (r: Option<T>)
      ensures r == if error.Some? then Some(inspect(error.value)) else None
    {
      r := if error.Some? then Some(inspect(error.value)) else None;
    }

    method Take() returns (r: Option<E>)
      modifies this
      ensures r == old(error) && error == None
    {
      r := error;
      error := None;
    }

    /**
     The lock admits one call at a time: serves calls in the order in which they
     acquire it. What each sees is `Seen`, and a source once taken stays empty.
     */
    method Serve(calls: seq<SourceCall>) returns (answers: seq<Option<E>>)
      modifies this
      ensures answers == Seen(old(error), calls)
      ensures error == if exists call | call in calls :: call.Taking? then None else old(error)
    {
      answers := [];
      for i := 0 to |calls|
        invariant answers + Seen(error, calls[i..]) == Seen(old(error), calls)
        invariant error == if exists call | call in calls[..i] :: call.Taking? then None else old(error)
      {
        var answer;
        if calls[i].Taking? {
          answer := Take();
        } else {
          answer := Inspect(e => e);
        }
        assert calls[i..][1..] == calls[i + 1..] && calls[..i + 1] == calls[..i] + [calls[i]];
        Associates(answers, [answer], Seen(error, calls[i + 1..]));
        answers := answers + [answer];
      }
      assert calls[..|calls|] == calls;
    }
  }

  datatype SourceCall = Inspecting(caller: nat) | Taking(caller: nat)

  /** What each of a sequence of locked calls, from whatever callers, sees of the source. */
  function Seen<E>(error: Option<E>, calls: seq<SourceCall>): (r: seq<Option<E>>)
    ensures |r| == |calls|
    decreases |calls|
  {
    if calls == [] then []
    else [error] + Seen(if calls[0].Taking? then None else error, calls[1..])
  }

  /** A call sees the source exactly when no earlier call took it: the first taker gets it, and only the first. */
  lemma {:induction false} FirstTakeWins<E>(error: Option<E>, calls: seq<SourceCall>, i: nat)
    requires i < |calls|
    ensures Seen(error, calls)[i] == if exists k | 0 <= k < i :: calls[k].Taking? then None else error
    decreases |calls|
  {
    if i > 0 {
      var next := if calls[0].Taking? then None else error;
      FirstTakeWins(next, calls[1..], i - 1);
      assert forall k | 0 < k < i :: calls[k] == calls[1..][k - 1];
    }
  }

  /** Whatever the interleaving, at most one taker obtains the source. */
  lemma {:induction false} AtMostOneTaker<E>(error: E, calls: seq<SourceCall>, i: nat, j: nat)
    requires i < j < |calls| && calls[i].Taking?
    ensures Seen(Some(error), calls)[j] == None
  {
    FirstTakeWins(Some(error), calls, j);
  }
}
