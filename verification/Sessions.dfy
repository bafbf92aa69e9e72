/**
 One session of a suite as a state machine: runs, cancelled runs, cleanup
 retries and fixture teardown, in any order and against any provider.
 */
module Sessions {
  import opened Common
  import opened StableSorting
  import opened Ledger
  import opened Reports
  import opened Runs
  import opened Contexts

  datatype Config = Config(canDelete: bool, canRecurse: bool, asynchronous: bool)

  datatype TeardownReply = TornDown | TeardownFailed(code: int) | TeardownPanicked(payload: int) | TeardownDropped

  /** What a phase does to the shared state, in order. */
  datatype Action =
    | Completing(id: CheckId, capability: Option<Capability>, outcome: Outcome)
    | Tracking(path: Path, owner: string)
    | NotingCleanup(failure: ContractFailure)
    | NotingFailure(failure: ContractFailure)

  datatype Ending =
    | Returned
    | FailedWith(failure: ContractFailure)
    | PanickedWith(payload: int)
    | DroppedInside

  datatype Dispatch = Dispatch(actions: seq<Action>, ending: Ending)

  /** The world in which a cleanup attempt runs. */
  datatype Env<!W> = Env(provider: Provider<W>, world: W, life: Lifetime, teardown: TeardownReply)

  datatype Suite = Suite(run: ContractRun, resources: seq<Resource>, resourceIndex: nat,
                         tornDown: bool, teardowns: seq<TeardownReply>)

  const FRESH := Suite(EMPTY_RUN, [], 0, false, [])

  // ---------- finish ----------

  datatype FinishResult = Succeeded | Unsuccessful | Interrupted

  /** One cleanup attempt of the driver the session belongs to. */
  function Attempt<W>(cfg: Config, p: Provider<W>, w: W, life: Lifetime, rs: seq<Resource>): Walked<W> {
    if !cfg.canDelete then Walked(w, life, [], [], rs, true)
    else if cfg.asynchronous then Walk(p, w, cfg.canRecurse, rs, life)
    else
      var k := Walk(p, w, cfg.canRecurse, rs, Forever);
      k.(ledger := Restore(Reverse(k.ledger)))
  }

  function CleanupWalk<W>(cfg: Config, env: Env<W>, rs: seq<Resource>): Walked<W> {
    Attempt(cfg, env.provider, env.world, env.life, rs)
  }

  function TeardownFault(reply: TeardownReply): seq<ContractFailure> {
    match reply
    case TeardownFailed(code) => [ContractFailure(None, FixtureFault("fixture teardown failed", code))]
    case TeardownPanicked(payload) => [ContractFailure(None, Panicked("fixture teardown panicked", payload))]
    case _ => []
  }

  /** The session once a cleanup attempt has been made, finished or dropped. */
  function Attempted<W>(s: Suite, k: Walked<W>): Suite {
    s.(run := s.run.(cleanup := CleanupReport(s.run.cleanup.attempts + 1, false, s.run.cleanup.failures + k.failures)),
       resources := k.ledger)
  }

  /**
   Teardown, unless it already succeeded, and the conclusion of an attempt that found
   `start` failures when it began.
   */
  function Closed(s: Suite, start: nat, teardown: TeardownReply): (Suite, FinishResult) {
    var faults := if s.tornDown then [] else TeardownFault(teardown);
    var cut := !s.tornDown && teardown.TeardownDropped?;
    var failures := s.run.cleanup.failures + faults;
    var succeeded := !cut && |failures| == start;
    (s.(run := s.run.(cleanup := CleanupReport(s.run.cleanup.attempts, succeeded, failures)),
        tornDown := s.tornDown || teardown.TornDown?,
        teardowns := if s.tornDown then s.teardowns else s.teardowns + [teardown]),
     if cut then Interrupted else if succeeded then Succeeded else Unsuccessful)
  }

  /** One cleanup attempt followed by the teardown. */
  function Finish<W>(cfg: Config, s: Suite, env: Env<W>): (Suite, FinishResult) {
    var k := CleanupWalk(cfg, env, s.resources);
    if k.finished then Closed(Attempted(s, k), |s.run.cleanup.failures|, env.teardown)
    else (Attempted(s, k), Interrupted)
  }

  // ---------- run ----------

  function Prepare(c: Catalog, asynchronous: bool, report: ReportData, contracts: seq<FileSystemContract>): ReportData
    decreases |contracts|
  {
    if contracts == [] then report
    else Prepare(c, asynchronous, PrepareIds(c, report, c.ForContract(contracts[0], asynchronous)), contracts[1..])
  }

  function Register(c: Catalog, asynchronous: bool, report: ReportData,
                    contracts: seq<FileSystemContract>, selected: Option<CheckId>): ReportData {
    match selected
    case Some(id) => RegisteredData(report, id, c.specification(id).capability)
    case None => Prepare(c, asynchronous, report, contracts)
  }

  function Fail(c: Catalog, s: Suite, failure: ContractFailure): Suite {
    var report := match failure.check
      case Some(id) =>
        RecordFor(c, s.run.report, id, c.specification(id).capability, Outcome.Failed(MessageOf(failure)))
      case None => s.run.report;
    s.(run := s.run.(report := report, failures := s.run.failures + [failure]))
  }

  function Act(c: Catalog, s: Suite, a: Action): Suite {
    match a
    case Completing(id, capability, outcome) =>
      s.(run := s.run.(report := RecordFor(c, s.run.report, id, capability, outcome)))
    case Tracking(path, owner) =>
      var (rs, index) := Tracked(s.resources, s.resourceIndex, path, owner);
      s.(resources := rs, resourceIndex := index)
    case NotingCleanup(failure) =>
      s.(run := s.run.(cleanup := s.run.cleanup.(failures := s.run.cleanup.failures + [failure])))
    case NotingFailure(failure) => s.(run := s.run.(failures := s.run.failures + [failure]))
  }

  function ActAll(c: Catalog, s: Suite, actions: seq<Action>): Suite
    decreases |actions|
  {
    if actions == [] then s else ActAll(c, Act(c, s, actions[0]), actions[1..])
  }

  datatype PhasesResult = AllReturned | Stopped | DroppedMidway

  /** Phases run in order until one fails, panics or is dropped. */
  function Phases(c: Catalog, s: Suite, selected: Option<CheckId>, dispatches: seq<Dispatch>): (Suite, PhasesResult)
    decreases |dispatches|
  {
    if dispatches == [] then (s, AllReturned)
    else
      var after := ActAll(c, s, dispatches[0].actions);
      match dispatches[0].ending
      case Returned => Phases(c, after, selected, dispatches[1..])
      case FailedWith(failure) => (Fail(c, after, failure), Stopped)
      case PanickedWith(payload) =>
        (Fail(c, after, ContractFailure(selected, Panicked("contract execution panicked", payload))), Stopped)
      case DroppedInside => (after, DroppedMidway)
  }

  datatype RunResult = Refused | Completed | Dropped

  function Begun(cfg: Config, c: Catalog, s: Suite, contracts: seq<FileSystemContract>,
                 selected: Option<CheckId>): Suite {
    s.(run := s.run.(started := true, report := Register(c, cfg.asynchronous, s.run.report, contracts, selected)))
  }

  function RunSelected<W>(cfg: Config, c: Catalog, s: Suite, contracts: seq<FileSystemContract>,
                          selected: Option<CheckId>, dispatches: seq<Dispatch>, env: Env<W>): (Suite, RunResult) {
    if s.run.started then (RefusedRun(s), Refused)
    else
      var (after, phases) := Phases(c, Begun(cfg, c, s, contracts, selected), selected, dispatches);
      if phases.DroppedMidway? then (after, Dropped)
      else
        var (finished, result) := Finish(cfg, after, env);
        if result.Interrupted? then (finished, Dropped) else (Concluded(finished, result), Completed)
  }

  /** The end of a run whose cleanup attempt returned. */
  function Concluded(s: Suite, result: FinishResult): Suite {
    var failures := if result.Unsuccessful? then s.run.failures + [ContractFailure(None, Message("cleanup failed"))]
                    else s.run.failures;
    s.(run := s.run.(failures := failures, completed := true))
  }

  function RefusedRun(s: Suite): Suite {
    s.(run := s.run.(failures := s.run.failures + [ContractFailure(None, Message("session already started"))]))
  }

  // ---------- histories ----------

  datatype Op<!W> =
    | Run(contracts: seq<FileSystemContract>, selected: Option<CheckId>, dispatches: seq<Dispatch>, env: Env<W>)
    | Retry(env: Env<W>)
    | Seed(path: Path, owner: string)

  function Step<W>(cfg: Config, c: Catalog, s: Suite, op: Op<W>): Suite {
    match op
    case Run(contracts, selected, dispatches, env) => RunSelected(cfg, c, s, contracts, selected, dispatches, env).0
    case Retry(env) => Finish(cfg, s, env).0
    case Seed(path, owner) => Act(c, s, Tracking(path, owner))
  }

  function Replay<W>(cfg: Config, c: Catalog, s: Suite, ops: seq<Op<W>>): Suite
    decreases |ops|
  {
    if ops == [] then s else Replay(cfg, c, Step(cfg, c, s, ops[0]), ops[1..])
  }

  // ---------- one attempt ----------

  /** An attempt that ran to its end, left nothing it could delete, and has the fixture torn down. */
  predicate AttemptSucceeds<W>(cfg: Config, s: Suite, env: Env<W>) {
    var k := CleanupWalk(cfg, env, s.resources);
    && k.finished && (cfg.canDelete ==> k.ledger == [])
    && (s.tornDown || env.teardown.TornDown?)
  }

  lemma {:induction false} RestoreIsEmptyTogether(kept: seq<Resource>)
    ensures Restore(Reverse(kept)) == [] <==> kept == []
    ensures |Restore(Reverse(kept))| == |kept|
  {
    RestoreIsSortedPermutation(kept);
    SameElements(Restore(Reverse(kept)), kept);
  }

  /**
   A finished attempt complains once per resource it retains, and retained and
   released resources add up to the ledger it started from.
   */
  lemma {:induction false} AttemptAccounts<W>(cfg: Config, env: Env<W>, rs: seq<Resource>)
    requires cfg.canDelete && CleanupWalk(cfg, env, rs).finished
    ensures var k := CleanupWalk(cfg, env, rs); |k.failures| == |k.ledger| && |rs| == |k.ledger| + Missing(k.events)
  {
    var life := if cfg.asynchronous then env.life else Forever;
    OneComplaintPerKeptResource(env.provider, env.world, cfg.canRecurse, rs, life);
    ReleasesAddUp(env.provider, env.world, cfg.canRecurse, rs, life);
    RestoreIsEmptyTogether(Walk(env.provider, env.world, cfg.canRecurse, rs, life).ledger);
  }

  /**
   A finish that returns succeeds exactly when the fixture is torn down and, with
   Delete supported, the ledger is empty; otherwise the failure history grows.
   */
  lemma {:induction false} FinishSucceedsExactly<W>(cfg: Config, s: Suite, env: Env<W>)
    ensures var (after, result) := Finish(cfg, s, env);
            && (result.Succeeded? <==> AttemptSucceeds(cfg, s, env))
            && (result.Succeeded? <==> after.run.cleanup.completed)
            && (result.Succeeded? ==> after.tornDown && (cfg.canDelete ==> after.resources == []))
            && (!result.Interrupted? ==>
                  (result.Succeeded? <==> after.tornDown && (cfg.canDelete ==> after.resources == [])))
            && (result.Unsuccessful? ==> |after.run.cleanup.failures| > |s.run.cleanup.failures|)
            && s.run.cleanup.failures <= after.run.cleanup.failures
            && after.run.cleanup.attempts == s.run.cleanup.attempts + 1
  {
    var k := CleanupWalk(cfg, env, s.resources);
    if cfg.canDelete && k.finished {
      AttemptAccounts(cfg, env, s.resources);
    }
  }

  /** What a teardown reply leaves among the cleanup failures. */
  predicate IsTeardownFault(faults: seq<ContractFailure>, reply: TeardownReply) {
    if reply.TeardownFailed? then faults == [ContractFailure(None, FixtureFault("fixture teardown failed", reply.code))]
    else if reply.TeardownPanicked? then
      faults == [ContractFailure(None, Panicked("fixture teardown panicked", reply.payload))]
    else faults == []
  }

  /** Everything a finish cannot change, and what became of the ledger. */
  predicate FinishKeeps(s: Suite, e: Suite, ledger: seq<Resource>) {
    && e.resources == ledger && e.resourceIndex == s.resourceIndex
    && e.run.report == s.run.report && e.run.failures == s.run.failures
    && e.run.started == s.run.started && e.run.completed == s.run.completed
  }

  lemma {:induction false} ClosedLeaves(s: Suite, start: nat, teardown: TeardownReply)
      returns (faults: seq<ContractFailure>)
    ensures var (e, result) := Closed(s, start, teardown);
            && (if s.tornDown then faults == [] else IsTeardownFault(faults, teardown))
            && e.run.cleanup.failures == s.run.cleanup.failures + faults
            && e.teardowns == s.teardowns + (if s.tornDown then [] else [teardown])
            && e.tornDown == (s.tornDown || teardown.TornDown?)
            && FinishKeeps(s, e, s.resources)
            && (result.Interrupted? <==> !s.tornDown && teardown.TeardownDropped?)
  {
    faults := if s.tornDown then [] else TeardownFault(teardown);
    assert s.teardowns + [] == s.teardowns;
  }

  /**
   What a finish leaves: every complaint of its cleanup attempt and then that of its
   teardown; the fixture is torn down, once more or for the first time, exactly when
   the cleanup attempt ended, with whatever result, and no teardown succeeded before.
   */
  lemma {:induction false} FinishLeaves<W>(cfg: Config, s: Suite, env: Env<W>) returns (faults: seq<ContractFailure>)
    ensures var (e, result) := Finish(cfg, s, env);
            var k := CleanupWalk(cfg, env, s.resources);
            var called := k.finished && !s.tornDown;
            && (if called then IsTeardownFault(faults, env.teardown) else faults == [])
            && e.run.cleanup.failures == s.run.cleanup.failures + k.failures + faults
            && e.teardowns == s.teardowns + (if called then [env.teardown] else [])
            && e.tornDown == (s.tornDown || (called && env.teardown.TornDown?))
            && FinishKeeps(s, e, k.ledger)
            && (result.Interrupted? <==> !k.finished || (called && env.teardown.TeardownDropped?))
  {
    var k := CleanupWalk(cfg, env, s.resources);
    if k.finished {
      faults := ClosedLeaves(Attempted(s, k), |s.run.cleanup.failures|, env.teardown);
    } else {
      faults := [];
      assert s.run.cleanup.failures + k.failures + [] == s.run.cleanup.failures + k.failures;
      assert s.teardowns + [] == s.teardowns;
    }
  }

  // ---------- teardown happens at most once successfully ----------

  /** Teardown replies end with the first success, and `tornDown` says whether there was one. */
  predicate TeardownLog(s: Suite) {
    && (forall i | 0 <= i < |s.teardowns| :: s.teardowns[i].TornDown? ==> i == |s.teardowns| - 1)
    && (s.tornDown <==> s.teardowns != [] && s.teardowns[|s.teardowns| - 1].TornDown?)
  }

  /** Phases touch neither the fixture nor the life-cycle flags. */
  predicate SameLifecycle(s: Suite, e: Suite) {
    && e.teardowns == s.teardowns && e.tornDown == s.tornDown
    && e.run.started == s.run.started && e.run.completed == s.run.completed
    && e.run.cleanup.attempts == s.run.cleanup.attempts && e.run.cleanup.completed == s.run.cleanup.completed
  }

  lemma {:induction false} ActKeepsLifecycle(c: Catalog, s: Suite, actions: seq<Action>)
    ensures SameLifecycle(s, ActAll(c, s, actions))
    decreases |actions|
  {
    if actions != [] {
      ActKeepsLifecycle(c, Act(c, s, actions[0]), actions[1..]);
    }
  }

  lemma {:induction false} PhasesKeepLifecycle(c: Catalog, s: Suite, selected: Option<CheckId>,
                                               dispatches: seq<Dispatch>)
    ensures SameLifecycle(s, Phases(c, s, selected, dispatches).0)
    decreases |dispatches|
  {
    if dispatches != [] {
      ActKeepsLifecycle(c, s, dispatches[0].actions);
      if dispatches[0].ending.Returned? {
        PhasesKeepLifecycle(c, ActAll(c, s, dispatches[0].actions), selected, dispatches[1..]);
      }
    }
  }

  ghost predicate TeardownContinues(before: Suite, after: Suite) {
    && TeardownLog(after) && before.teardowns <= after.teardowns
    && (before.tornDown ==> after.teardowns == before.teardowns)
  }

  lemma {:induction false} FinishContinuesTeardown<W>(cfg: Config, s: Suite, env: Env<W>)
    requires TeardownLog(s)
    ensures TeardownContinues(s, Finish(cfg, s, env).0)
  {
    var k := CleanupWalk(cfg, env, s.resources);
    if k.finished {
      ClosingContinuesTeardown(Attempted(s, k), |s.run.cleanup.failures|, env.teardown);
    }
  }

  lemma {:induction false} ClosingContinuesTeardown(s: Suite, start: nat, teardown: TeardownReply)
    requires TeardownLog(s)
    ensures TeardownContinues(s, Closed(s, start, teardown).0)
  {
  }

  lemma {:induction false} FinishAfterPhasesContinues<W>(cfg: Config, s: Suite, after: Suite, env: Env<W>)
    requires TeardownLog(s) && after.teardowns == s.teardowns && after.tornDown == s.tornDown
    ensures TeardownContinues(s, after)
    ensures var (finished, result) := Finish(cfg, after, env);
            TeardownContinues(s, finished) && TeardownContinues(s, Concluded(finished, result))
  {
    FinishContinuesTeardown(cfg, after, env);
  }

  lemma {:induction false} RunContinuesTeardown<W>(cfg: Config, c: Catalog, s: Suite,
                                                   contracts: seq<FileSystemContract>, selected: Option<CheckId>,
                                                   dispatches: seq<Dispatch>, env: Env<W>)
    requires TeardownLog(s)
    ensures TeardownContinues(s, RunSelected(cfg, c, s, contracts, selected, dispatches, env).0)
  {
    if !s.run.started {
      var begun := Begun(cfg, c, s, contracts, selected);
      PhasesKeepLifecycle(c, begun, selected, dispatches);
      FinishAfterPhasesContinues(cfg, s, Phases(c, begun, selected, dispatches).0, env);
    }
  }

  lemma {:induction false} StepContinuesTeardown<W>(cfg: Config, c: Catalog, s: Suite, op: Op<W>)
    requires TeardownLog(s)
    ensures TeardownContinues(s, Step(cfg, c, s, op))
  {
    match op
    case Run(contracts, selected, dispatches, env) =>
      RunContinuesTeardown(cfg, c, s, contracts, selected, dispatches, env);
    case Retry(env) => FinishContinuesTeardown(cfg, s, env);
    case Seed(path, owner) =>
  }

  /** After a recorded teardown success the fixture is never torn down again. */
  lemma {:induction false} TeardownNeverRepeats<W>(cfg: Config, c: Catalog, s: Suite, ops: seq<Op<W>>)
    requires TeardownLog(s)
    ensures TeardownContinues(s, Replay(cfg, c, s, ops))
    decreases |ops|
  {
    if ops != [] {
      StepContinuesTeardown(cfg, c, s, ops[0]);
      TeardownNeverRepeats(cfg, c, Step(cfg, c, s, ops[0]), ops[1..]);
    }
  }

  /** After an attempt whose teardown failed, cleanup was attempted and the fixture does not count as torn down. */
  lemma {:induction false} AttemptedIsNotTornDown<W>(cfg: Config, env: Env<W>, code: int)
    requires env.teardown == TeardownFailed(code)
    ensures var (e, result) := Finish(cfg, FRESH, env);
            e.run.cleanup.attempts == 1 && !e.tornDown && e.teardowns == [TeardownFailed(code)] && result.Unsuccessful?
  {
    FinishSucceedsExactly(cfg, FRESH, env);
    assert CleanupWalk(cfg, env, []).finished;
  }
}
