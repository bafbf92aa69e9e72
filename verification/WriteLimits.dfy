/** The write-limit boundary probe and the bounded plans behind it. */
module WriteLimits {
  import opened Common
  import opened Reports
  import opened Writers

  // ---------- plans ----------

  datatype Limit = Maximum(maximum: nat) | Unknown | NoLimitApplies | Unbounded

  const MAX_PROBE_BYTES: nat := 64 * 1024

  /** `u64::checked_add`. */
  function CheckedAdd(a: nat, b: nat): Option<nat> {
    if a + b <= U64_MAX then Some(a + b) else None
  }

  /** The boundary and its successor, when the successor fits the budget. */
  function BoundedSuccessor(maximum: nat, budget: nat): (r: Option<(nat, nat)>)
    requires budget <= U64_MAX
    ensures r.Some? <==> maximum < budget
    ensures r.Some? ==> r.value.0 == maximum && r.value.1 == maximum + 1 && r.value.1 <= budget
  {
    if maximum >= budget then None
    else match CheckedAdd(maximum, 1)
      case Some(successor) => if successor <= budget then Some((maximum, successor)) else None
      case None => None
  }

  function FiniteProbe(limit: Limit, budget: nat): (r: Option<(nat, nat)>)
    requires budget <= U64_MAX
    ensures r.Some? <==> limit.Maximum? && limit.maximum < budget
    ensures r.Some? ==> r.value == (limit.maximum, limit.maximum + 1)
  {
    match limit
    case Maximum(maximum) => BoundedSuccessor(maximum, budget)
    case _ => None
  }

  /**
   The longest prefix of a sample that a declared maximum admits, on a platform whose
   index type ends at `indexMax`.
   */
  function BoundedPayload<T>(sample: seq<T>, limit: Limit, indexMax: nat): (r: seq<T>)
    requires |sample| <= indexMax
    ensures r <= sample && (limit.Maximum? ==> |r| <= limit.maximum)
    ensures |r| == |sample| || (limit.Maximum? && |r| == limit.maximum)
  {
    match limit
    case Maximum(maximum) =>
      var bound := if maximum <= indexMax then maximum else indexMax;
      sample[..if |sample| <= bound then |sample| else bound]
    case _ => sample
  }

  // ---------- an expected rejection ----------

  datatype WriteFailure = WriteFailure(kind: ErrorKind, path: Option<string>, provider: Option<string>,
                                       state: FailureState, recovery: Option<Session>)

  /** The rejection claims that nothing was published. */
  predicate ClaimsNothingPublished(failure: WriteFailure) {
    failure.state.NotPublished? || failure.state.RetryableNotPublished?
  }

  /** A rejection may be accepted when no session was left, or its claim of non-publication is confirmed by an abort. */
  predicate CleanRejection(failure: WriteFailure, abort: AbortReply) {
    failure.recovery.Some? ==>
      && ClaimsNothingPublished(failure)
      && failure.recovery.value.OpenedSession? && abort == AbortReturned(AbortNotPublished)
  }

  datatype RejectionResult = Accepted | Kept(failure: WriteFailure)

  /** Cleans a rejected session up before accepting the rejection; anything else keeps the whole failure. */
  method FinishExpectedWriteFailure(failure: WriteFailure, abort: BlockingReply)
    returns (r: RejectionResult, calls: seq<AbortCall>)
    ensures r == if CleanRejection(failure, abort) then Accepted else Kept(failure)
    ensures r.Accepted? <==>
              failure.recovery == None ||
              (failure.state in {NotPublished, RetryableNotPublished} && failure.recovery.value.OpenedSession?
               && abort == AbortReturned(AbortNotPublished))
    ensures calls == if ClaimsNothingPublished(failure) then CallsFor(failure.recovery, abort) else []
    ensures r.Accepted? && failure.recovery.Some? ==> Discharged(failure.recovery.value, calls)
  {
    calls := [];
    if failure.recovery.None? {
      return Accepted, calls;
    }
    if !failure.state.NotPublished? && !failure.state.RetryableNotPublished? {
      return Kept(failure), calls;
    }
    match failure.recovery.value {
      case RejectedSession(_) => return Kept(failure), calls;
      case OpenedSession(writer) =>
        calls := [AbortCall(writer, abort)];
        assert calls[0] in calls;
        match abort {
          case AbortPanicked(_) => return Kept(failure), calls;
          case AbortFailed(_) => return Kept(failure), calls;
          case AbortReturned(outcome) =>
            r := if outcome.AbortNotPublished? then Accepted else Kept(failure);
        }
    }
  }

  // ---------- the probe ----------

  datatype Disposition = CreateNew | CreateOrReplace | OtherDisposition

  datatype WriteCase = WriteCase(path: string, bytes: string, disposition: Disposition)

  datatype Preparation =
    | Ready(request: WriteCase)
    | Unavailable(reason: string)
    | Inapplicable(reason: string)
    | PreparationFailed

  datatype WriteReply = Written(count: Option<nat>) | Rejected(failure: WriteFailure)

  datatype ReadReply = Contents(bytes: string) | ReadUnsupported | ReadFailed

  /** What fixture and provider answer to a probe of a given size. */
  datatype ProbeEnv = ProbeEnv(provider: string, prepare: nat -> Preparation, write: nat -> WriteReply,
                               abort: nat -> BlockingReply, read: nat -> ReadReply)

  /** A failing probe keeps the rejected write, with the session it may still own. */
  datatype LimitResult = Concluded(outcome: Outcome) | Broken(reason: string, kept: Option<WriteFailure>)

  function Payload(n: nat): (bytes: string)
    ensures |bytes| == n && forall c | c in bytes :: c == 'a'
  {
    seq(n, _ => 'a')
  }

  predicate FaithfulCase(p: Preparation, n: nat) {
    p.Ready? && p.request.bytes == Payload(n) && !p.request.disposition.OtherDisposition?
  }

  /** The boundary size is accepted and independently observed. */
  predicate BoundaryHolds(env: ProbeEnv, n: nat) {
    && FaithfulCase(env.prepare(n), n)
    && env.write(n).Written? && (env.write(n).count == None || env.write(n).count == Some(n))
    && env.read(n) == Contents(Payload(n))
  }

  /** The successor is rejected by the limit, on its path, leaving nothing behind. */
  predicate SuccessorRejected(env: ProbeEnv, n: nat) {
    && FaithfulCase(env.prepare(n), n)
    && env.write(n).Rejected?
    && var failure := env.write(n).failure;
       && failure.kind == ResourceLimitExceeded && failure.path == Some(env.prepare(n).request.path)
       && failure.provider == Some(env.provider) && CleanRejection(failure, env.abort(n))
  }

  /** Where a round of size `n` wrote, or may have written. */
  function Destination(env: ProbeEnv, n: nat): seq<string> {
    if FaithfulCase(env.prepare(n), n) then [env.prepare(n).request.path] else []
  }

  /** The rejection a round of size `n` met, if it got as far as writing. */
  function Rejection(env: ProbeEnv, n: nat): Option<WriteFailure> {
    if FaithfulCase(env.prepare(n), n) && env.write(n).Rejected? then Some(env.write(n).failure) else None
  }

  /** How a round that did not hold is reported: skipped, unverified, or broken with the rejection it met. */
  predicate Explains(result: LimitResult, env: ProbeEnv, n: nat) {
    match env.prepare(n)
    case Unavailable(reason) => result == Concluded(SkippedOptional(reason))
    case Inapplicable(_) => result.Concluded? && result.outcome.Unverified?
    case _ => result.Broken? && result.kept == Rejection(env, n)
  }

  /** One round of the loop; no result means the round held. */
  method Probe(env: ProbeEnv, n: nat, reject: bool)
    returns (result: Option<LimitResult>, tracked: seq<string>, calls: seq<AbortCall>)
    ensures result == None <==> if reject then SuccessorRejected(env, n) else BoundaryHolds(env, n)
    ensures result.Some? ==> Explains(result.value, env, n)
    ensures env.prepare(n).Unavailable? ==> result == Some(Concluded(SkippedOptional(env.prepare(n).reason)))
    ensures env.prepare(n).Inapplicable? ==>
              result.Some? && result.value.Concluded? && result.value.outcome.Unverified?
    ensures env.prepare(n).PreparationFailed? ==> result == Some(Broken("write limit preparation failed", None))
    ensures result.Some? && Prepares(env, n) ==>
              result.value.Broken?
              && (env.write(n).Rejected? ==> result.value.kept == Some(env.write(n).failure))
              && (env.write(n).Written? ==> result.value.kept == None)
    ensures Prepares(env, n) ==> tracked == [env.prepare(n).request.path]
    ensures env.prepare(n).Ready? && !Prepares(env, n) ==>
              result.Some? && result.value.Broken? && result.value.kept == None && tracked == []
    ensures tracked == Destination(env, n)
    ensures result == None && reject && env.write(n).failure.recovery.Some? ==>
              Discharged(env.write(n).failure.recovery.value, calls)
  {
    OnlyPayload(env, n);
    var bytes := Payload(n);
    tracked, calls := [], [];
    match env.prepare(n) {
      case PreparationFailed => return Some(Broken("write limit preparation failed", None)), tracked, calls;
      case Unavailable(reason) => return Some(Concluded(SkippedOptional(reason))), tracked, calls;
      case Inapplicable(reason) =>
        var explained := "finite Write capability requires boundary evidence: " + reason;
        return Some(Concluded(Outcome.Unverified(explained))), tracked, calls;
      case Ready(request) =>
        if request.bytes != bytes || request.disposition.OtherDisposition? {
          return Some(Broken("write limit fixture changed creation semantics", None)), tracked, calls;
        }
        tracked := [request.path];
        var written := env.write(n);
        if reject {
          if written.Written? {
            return Some(Broken("write limit successor was accepted", None)), tracked, calls;
          }
          var failure := written.failure;
          if failure.kind != ResourceLimitExceeded || failure.path != Some(request.path)
              || failure.provider != Some(env.provider) {
            return Some(Broken("write limit rejection differs", Some(failure))), tracked, calls;
          }
          var finished;
          finished, calls := FinishExpectedWriteFailure(failure, env.abort(n));
          return if finished.Kept? then Some(Broken("write rejection kept", Some(finished.failure))) else None,
                 tracked, calls;
        }
        if written.Rejected? {
          return Some(Broken("write boundary request failed", Some(written.failure))), tracked, calls;
        }
        if written.count != None && written.count != Some(n) {
          return Some(Broken("write boundary byte count differs", None)), tracked, calls;
        }
        var observed := env.read(n);
        if observed != Contents(bytes) {
          return Some(Broken("write boundary published bytes differ", None)), tracked, calls;
        }
        return None, tracked, calls;
    }
  }

  const NO_PROBE := "write limit has no bounded probe"

  lemma {:induction false} NoProbeIsExplained()
    ensures !Blank(NO_PROBE)
  {
    assert NO_PROBE[0] == 'w' && NO_PROBE[0] in NO_PROBE;
    assert !IsWhitespace('w');
  }

  /** Probes the boundary, then its successor; every prepared destination is tracked. */
  method ExecuteWriteLimit(limit: Limit, env: ProbeEnv)
    returns (result: LimitResult, tracked: seq<string>, largest: nat, calls: seq<AbortCall>)
    ensures largest <= MAX_PROBE_BYTES
    ensures FiniteProbe(limit, MAX_PROBE_BYTES).None? ==>
              result.Concluded? && result.outcome.SkippedOptional? && !Blank(result.outcome.reason) && tracked == []
    ensures FiniteProbe(limit, MAX_PROBE_BYTES).Some? ==>
              var m := limit.maximum;
              && (result == Concluded(Passed) <==> BoundaryHolds(env, m) && SuccessorRejected(env, m + 1))
              && (result != Concluded(Passed) ==> Explains(result, env, if BoundaryHolds(env, m) then m + 1 else m))
              && tracked == Destination(env, m) + (if BoundaryHolds(env, m) then Destination(env, m + 1) else [])
              && (result == Concluded(Passed) && env.write(m + 1).failure.recovery.Some? ==>
                    Discharged(env.write(m + 1).failure.recovery.value, calls))
  {
    tracked, largest, calls := [], 0, [];
    var plan := FiniteProbe(limit, MAX_PROBE_BYTES);
    if plan.None? {
      NoProbeIsExplained();
      return Concluded(SkippedOptional(NO_PROBE)), tracked, largest, calls;
    }
    var (maximum, over) := plan.value;
    var rounds := [(maximum, false), (over, true)];
    var i := 0;
    while i < 2
      invariant 0 <= i <= 2 && largest <= MAX_PROBE_BYTES
      invariant tracked == if i == 0 then [] else if i == 1 then Destination(env, maximum)
                           else Destination(env, maximum) + Destination(env, over)
      invariant i > 0 ==> BoundaryHolds(env, maximum)
      invariant i > 1 ==> SuccessorRejected(env, over)
      invariant i > 1 && env.write(over).failure.recovery.Some? ==>
                  Discharged(env.write(over).failure.recovery.value, calls)
    {
      var (count, reject) := rounds[i];
      largest := count;
      var verdict, path;
      verdict, path, calls := Probe(env, count, reject);
      tracked := tracked + path;
      if verdict.Some? {
        return verdict.value, tracked, largest, calls;
      }
      i := i + 1;
    }
    return Concluded(Passed), tracked, largest, calls;
  }

  /** The fixture asks for exactly the given bytes, to be written to a new or replaced file. */
  predicate Prepares(env: ProbeEnv, n: nat) {
    && env.prepare(n).Ready? && |env.prepare(n).request.bytes| == n
    && (forall c | c in env.prepare(n).request.bytes :: c == 'a')
    && env.prepare(n).request.disposition in {CreateNew, CreateOrReplace}
  }

  /** What a boundary round needs: acceptance, a matching byte count if any, and the same bytes read back. */
  lemma {:induction false} BoundaryHoldsIff(env: ProbeEnv, n: nat)
    ensures BoundaryHolds(env, n) <==>
            && Prepares(env, n)
            && env.write(n).Written? && env.write(n).count in {None, Some(n)}
            && env.read(n) == Contents(env.prepare(n).request.bytes)
  {
    OnlyPayload(env, n);
  }

  /**
   What a successor round needs: a rejection for the limit, on the path and from the
   provider, that left no session or one whose abort confirmed that nothing was published.
   */
  lemma {:induction false} SuccessorRejectedIff(env: ProbeEnv, n: nat)
    ensures SuccessorRejected(env, n) <==>
            && Prepares(env, n) && env.write(n).Rejected?
            && var failure := env.write(n).failure;
               && failure.kind == ResourceLimitExceeded && failure.path == Some(env.prepare(n).request.path)
               && failure.provider == Some(env.provider)
               && (failure.recovery == None ||
                   (failure.state in {NotPublished, RetryableNotPublished} && failure.recovery.value.OpenedSession?
                    && env.abort(n) == AbortReturned(AbortNotPublished)))
  {
    OnlyPayload(env, n);
  }

  lemma {:induction false} OnlyPayload(env: ProbeEnv, n: nat)
    ensures FaithfulCase(env.prepare(n), n) <==> Prepares(env, n)
  {
    if Prepares(env, n) {
      var bytes := env.prepare(n).request.bytes;
      assert forall i | 0 <= i < n :: bytes[i] in bytes && Payload(n)[i] in Payload(n);
      assert bytes == Payload(n);
    }
  }

  /**
   A ready fixture and a provider that accepts `n` bytes exactly when `n` is within its
   true limit, and says so truthfully.
   */
  ghost predicate Honest(env: ProbeEnv, limit: Option<nat>) {
    forall n: nat ::
      && Prepares(env, n)
      && (env.write(n).Written? <==> limit == None || n <= limit.value)
      && (env.write(n).Written? ==>
            env.write(n).count in {None, Some(n)} && env.read(n) == Contents(env.prepare(n).request.bytes))
      && (env.write(n).Rejected? ==>
            var failure := env.write(n).failure;
            && failure.kind == ResourceLimitExceeded && failure.path == Some(env.prepare(n).request.path)
            && failure.provider == Some(env.provider)
            && (failure.recovery == None ||
                (failure.state in {NotPublished, RetryableNotPublished} && failure.recovery.value.OpenedSession?
                 && env.abort(n) == AbortReturned(AbortNotPublished))))
  }

  /** Against an honest provider the probe holds exactly when the declared maximum is the true one. */
  lemma {:induction false} HonestProbeIsExact(env: ProbeEnv, truth: Option<nat>, declared: nat)
    requires Honest(env, truth)
    ensures BoundaryHolds(env, declared) && SuccessorRejected(env, declared + 1) <==> truth == Some(declared)
  {
    BoundaryHoldsIff(env, declared);
    SuccessorRejectedIff(env, declared + 1);
    assert Prepares(env, declared) && Prepares(env, declared + 1);
  }

  /**
   The whole check. Against an honest provider, whatever its true limit, it
   passes exactly when that limit is declared and within the probe budget, and it
   is skipped exactly when the declaration cannot be probed.
   */
  method CheckWriteLimit(limit: Limit, env: ProbeEnv) returns (result: LimitResult, tracked: seq<string>)
    ensures forall truth | Honest(env, truth) ::
              && (result == Concluded(Passed) <==>
                    limit.Maximum? && limit.maximum < 65536 && truth == Some(limit.maximum))
              && (result.Concluded? && result.outcome.SkippedOptional? <==>
                    !limit.Maximum? || limit.maximum >= 65536)
  {
    var largest, calls;
    result, tracked, largest, calls := ExecuteWriteLimit(limit, env);
    if limit.Maximum? {
      var m := limit.maximum;
      forall truth | Honest(env, truth)
        ensures BoundaryHolds(env, m) && SuccessorRejected(env, m + 1) <==> truth == Some(m)
        ensures env.prepare(m).Ready? && env.prepare(m + 1).Ready?
      {
        HonestProbeIsExact(env, truth, m);
        assert Prepares(env, m) && Prepares(env, m + 1);
      }
    }
  }
}
