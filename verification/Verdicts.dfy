/**
 What the verdict of a session means over whole histories: when it is
 satisfied, which shortfalls can still be repaired, and what an early stop keeps.
 */
module Verdicts {
  import opened Common
  import opened StableSorting
  import opened Ledger
  import opened Reports
  import opened Runs
  import opened Contexts
  import opened Sessions

  // ---------- facts a bystander could note about a history ----------

  datatype Facts = Facts(runs: nat, returned: bool, dispatchTrouble: bool, cleanupTrouble: bool,
                         lastAttemptSucceeded: bool, lastAttemptDropped: bool)

  const NOTHING_NOTED := Facts(0, false, false, false, false, false)

  /** A phase that failed, panicked, or noted a failure of its own. */
  predicate Troubled(d: Dispatch) {
    d.ending.FailedWith? || d.ending.PanickedWith? || exists a | a in d.actions :: a.NotingFailure?
  }

  predicate NotesCleanup(d: Dispatch) {
    exists a | a in d.actions :: a.NotingCleanup?
  }

  /** The phases that were dispatched: all up to the first that did not return. */
  function Dispatched(dispatches: seq<Dispatch>): seq<Dispatch> {
    if dispatches == [] then []
    else if dispatches[0].ending.Returned? then [dispatches[0]] + Dispatched(dispatches[1..])
    else [dispatches[0]]
  }

  /** A complaint of the attempt, or a failed teardown. */
  predicate AttemptTrouble<W>(cfg: Config, s: Suite, env: Env<W>) {
    var k := CleanupWalk(cfg, env, s.resources);
    k.failures != [] || (k.finished && !s.tornDown && (env.teardown.TeardownFailed? || env.teardown.TeardownPanicked?))
  }

  predicate AttemptDropped<W>(cfg: Config, s: Suite, env: Env<W>) {
    var k := CleanupWalk(cfg, env, s.resources);
    !k.finished || (!s.tornDown && env.teardown.TeardownDropped?)
  }

  function NoteAttempt<W>(cfg: Config, s: Suite, env: Env<W>, f: Facts): Facts {
    f.(cleanupTrouble := f.cleanupTrouble || AttemptTrouble(cfg, s, env),
       lastAttemptSucceeded := AttemptSucceeds(cfg, s, env), lastAttemptDropped := AttemptDropped(cfg, s, env))
  }

  function NoteDispatches(f: Facts, made: seq<Dispatch>): Facts {
    f.(dispatchTrouble := exists d | d in made :: Troubled(d),
       cleanupTrouble := f.cleanupTrouble || exists d | d in made :: NotesCleanup(d))
  }

  function Note<W>(cfg: Config, c: Catalog, s: Suite, f: Facts, op: Op<W>): Facts {
    match op
    case Seed(_, _) => f
    case Retry(env) => NoteAttempt(cfg, s, env, f)
    case Run(contracts, selected, dispatches, env) =>
      var g := f.(runs := f.runs + 1);
      if f.runs > 0 then g
      else
        var h := NoteDispatches(g, Dispatched(dispatches));
        var (after, phases) := Phases(c, Begun(cfg, c, s, contracts, selected), selected, dispatches);
        if phases.DroppedMidway? then h
        else NoteAttempt(cfg, after, env, h).(returned := !AttemptDropped(cfg, after, env))
  }

  function NoteAll<W>(cfg: Config, c: Catalog, s: Suite, f: Facts, ops: seq<Op<W>>): Facts
    decreases |ops|
  {
    if ops == [] then f
    else NoteAll(cfg, c, Step(cfg, c, s, ops[0]), Note(cfg, c, s, f, ops[0]), ops[1..])
  }

  /** Exactly one run, which returned untroubled; no cleanup complaint ever; the latest attempt succeeded. */
  predicate Flawless(f: Facts) {
    f.runs == 1 && f.returned && !f.dispatchTrouble && !f.cleanupTrouble && f.lastAttemptSucceeded
  }

  /** How the stored flags and logs reflect the facts. */
  predicate Reflects(s: Suite, f: Facts) {
    && (s.run.started <==> f.runs > 0) && (s.run.completed <==> f.returned)
    && (s.run.cleanup.failures == [] <==> !f.cleanupTrouble)
    && (s.run.cleanup.completed <==> f.lastAttemptSucceeded)
    && (s.run.cleanup.failures == [] ==> (s.run.failures == [] <==> f.runs <= 1 && !f.dispatchTrouble))
    && (f.runs == 0 ==> !f.dispatchTrouble && !f.returned && s.run.failures == [])
  }

  lemma {:induction false} ActionsReflect(c: Catalog, s: Suite, actions: seq<Action>)
    ensures var e := ActAll(c, s, actions);
            && (e.run.failures == [] <==> s.run.failures == [] && !exists a | a in actions :: a.NotingFailure?)
            && (e.run.cleanup.failures == [] <==>
                s.run.cleanup.failures == [] && !exists a | a in actions :: a.NotingCleanup?)
    decreases |actions|
  {
    if actions != [] {
      ActionsReflect(c, Act(c, s, actions[0]), actions[1..]);
      assert forall a :: a in actions <==> a == actions[0] || a in actions[1..];
    }
  }

  lemma {:induction false} PhasesReflect(c: Catalog, s: Suite, selected: Option<CheckId>, dispatches: seq<Dispatch>)
    ensures var e := Phases(c, s, selected, dispatches).0;
            var made := Dispatched(dispatches);
            && (e.run.failures == [] <==> s.run.failures == [] && !exists d | d in made :: Troubled(d))
            && (e.run.cleanup.failures == [] <==>
                s.run.cleanup.failures == [] && !exists d | d in made :: NotesCleanup(d))
    decreases |dispatches|
  {
    if dispatches != [] {
      ActionsReflect(c, s, dispatches[0].actions);
      var made := Dispatched(dispatches);
      assert made[0] == dispatches[0] && made[0] in made;
      if dispatches[0].ending.Returned? {
        PhasesReflect(c, ActAll(c, s, dispatches[0].actions), selected, dispatches[1..]);
        var later := Dispatched(dispatches[1..]);
        assert forall d :: d in made <==> d == dispatches[0] || d in later;
        assert (exists d | d in made :: Troubled(d)) <==>
               Troubled(dispatches[0]) || exists d | d in later :: Troubled(d);
        assert (exists d | d in made :: NotesCleanup(d)) <==>
               NotesCleanup(dispatches[0]) || exists d | d in later :: NotesCleanup(d);
      } else {
        assert made == [dispatches[0]];
        assert (exists d | d in made :: Troubled(d)) <==> Troubled(dispatches[0]);
        assert (exists d | d in made :: NotesCleanup(d)) <==> NotesCleanup(dispatches[0]);
        match dispatches[0].ending {
          case FailedWith(failure) =>
          case PanickedWith(payload) =>
          case DroppedInside =>
        }
      }
    }
  }

  lemma {:induction false} FinishReflects<W>(cfg: Config, s: Suite, env: Env<W>)
    ensures var (e, result) := Finish(cfg, s, env);
            && (e.run.cleanup.failures == [] <==> s.run.cleanup.failures == [] && !AttemptTrouble(cfg, s, env))
            && (e.run.cleanup.completed <==> AttemptSucceeds(cfg, s, env))
            && (result.Interrupted? <==> AttemptDropped(cfg, s, env))
            && (result.Unsuccessful? ==> AttemptTrouble(cfg, s, env))
            && e.run.failures == s.run.failures && e.run.started == s.run.started && e.run.completed == s.run.completed
            && e.run.report == s.run.report
  {
    FinishSucceedsExactly(cfg, s, env);
  }

  lemma {:induction false} AttemptReflects<W>(cfg: Config, s: Suite, env: Env<W>, f: Facts)
    requires Reflects(s, f)
    ensures Reflects(Finish(cfg, s, env).0, NoteAttempt(cfg, s, env, f))
  {
    FinishReflects(cfg, s, env);
  }

  lemma {:induction false} BegunReflects(cfg: Config, c: Catalog, s: Suite, f: Facts,
                                         contracts: seq<FileSystemContract>, selected: Option<CheckId>,
                                         dispatches: seq<Dispatch>)
    requires Reflects(s, f) && !s.run.started
    ensures Reflects(Phases(c, Begun(cfg, c, s, contracts, selected), selected, dispatches).0,
                     NoteDispatches(f.(runs := 1), Dispatched(dispatches)))
  {
    var begun := Begun(cfg, c, s, contracts, selected);
    PhasesReflect(c, begun, selected, dispatches);
    PhasesKeepLifecycle(c, begun, selected, dispatches);
  }

  lemma {:induction false} ConclusionReflects(s: Suite, result: FinishResult, f: Facts)
    requires Reflects(s, f) && f.runs == 1 && (result.Unsuccessful? ==> f.cleanupTrouble)
    ensures Reflects(Concluded(s, result), f.(returned := true))
  {
  }

  lemma {:induction false} RunReflects<W>(cfg: Config, c: Catalog, s: Suite, f: Facts,
                                          contracts: seq<FileSystemContract>, selected: Option<CheckId>,
                                          dispatches: seq<Dispatch>, env: Env<W>)
    requires Reflects(s, f)
    ensures Reflects(RunSelected(cfg, c, s, contracts, selected, dispatches, env).0,
                     Note(cfg, c, s, f, Run(contracts, selected, dispatches, env)))
  {
    if !s.run.started {
      var (after, phases) := Phases(c, Begun(cfg, c, s, contracts, selected), selected, dispatches);
      var h := NoteDispatches(f.(runs := 1), Dispatched(dispatches));
      BegunReflects(cfg, c, s, f, contracts, selected, dispatches);
      if !phases.DroppedMidway? {
        AttemptReflects(cfg, after, env, h);
        FinishReflects(cfg, after, env);
        var (finished, result) := Finish(cfg, after, env);
        if !result.Interrupted? {
          ConclusionReflects(finished, result, NoteAttempt(cfg, after, env, h));
        }
      }
    }
  }

  lemma {:induction false} HistoryReflects<W>(cfg: Config, c: Catalog, s: Suite, f: Facts, ops: seq<Op<W>>)
    requires Reflects(s, f)
    ensures Reflects(Replay(cfg, c, s, ops), NoteAll(cfg, c, s, f, ops))
    decreases |ops|
  {
    if ops != [] {
      match ops[0] {
        case Run(contracts, selected, dispatches, env) =>
          RunReflects(cfg, c, s, f, contracts, selected, dispatches, env);
        case Retry(env) => AttemptReflects(cfg, s, env, f);
        case Seed(path, owner) =>
      }
      HistoryReflects(cfg, c, Step(cfg, c, s, ops[0]), Note(cfg, c, s, f, ops[0]), ops[1..]);
    }
  }

  /**
   Over every history of runs, cancelled runs, refused runs, retries and seeds,
   the verdict is satisfied exactly when one run was started and returned, no
   phase failed, panicked or noted a failure, no cleanup complaint was ever made,
   the latest attempt succeeded, and the report meets the policy.
   */
  lemma {:induction false} VerdictOfHistory<W>(cfg: Config, c: Catalog, ops: seq<Op<W>>, required: seq<CheckId>)
    ensures var e := Replay(cfg, c, FRESH, ops);
            e.run.RequirementsSatisfiedWith(required) <==>
            Flawless(NoteAll(cfg, c, FRESH, NOTHING_NOTED, ops)) && e.run.report.RequirementsSatisfiedWith(required)
  {
    HistoryReflects(cfg, c, FRESH, NOTHING_NOTED, ops);
  }

  /**
   Over every history: every applicable check is verified exactly when the default
   verdict holds and nothing was skipped, and the run counts as interrupted exactly
   when one was started and did not return.
   */
  lemma {:induction false} StrictestVerdictOfHistory<W>(cfg: Config, c: Catalog, ops: seq<Op<W>>)
    ensures var e := Replay(cfg, c, FRESH, ops);
            var f := NoteAll(cfg, c, FRESH, NOTHING_NOTED, ops);
            && (e.run.AllApplicableChecksVerified() <==>
                && Flawless(f) && e.run.report.RequirementsSatisfiedWith([])
                && forall k | k in e.run.report.checks :: !k.outcome.SkippedOptional?)
            && (e.run.WasInterrupted() <==> f.runs > 0 && !f.returned)
  {
    HistoryReflects(cfg, c, FRESH, NOTHING_NOTED, ops);
    ReportStaysValid(cfg, c, FRESH, ops);
    AllApplicableIsStrongest(Replay(cfg, c, FRESH, ops).run.report, []);
  }

  lemma {:induction false} ReportStaysValid<W>(cfg: Config, c: Catalog, s: Suite, ops: seq<Op<W>>)
    requires s.run.report.Valid()
    ensures Replay(cfg, c, s, ops).run.report.Valid()
    decreases |ops|
  {
    if ops != [] {
      match ops[0] {
        case Run(contracts, selected, dispatches, env) =>
          if !s.run.started {
            RunWorsens(cfg, c, s, contracts, selected, dispatches, env);
          }
        case Retry(env) => FinishReflects(cfg, s, env);
        case Seed(_, _) =>
      }
      ReportStaysValid(cfg, c, Step(cfg, c, s, ops[0]), ops[1..]);
    }
  }

  // ---------- which shortfalls can be repaired ----------

  /** Everything but the outcome of the latest cleanup attempt is in order. */
  predicate Repairable(s: Suite, required: seq<CheckId>) {
    && s.run.completed && s.run.failures == [] && s.run.cleanup.failures == []
    && s.run.report.RequirementsSatisfiedWith(required)
  }

  lemma {:induction false} StepKeepsDamage<W>(cfg: Config, c: Catalog, s: Suite, op: Op<W>)
    requires s.run.started
    ensures var e := Step(cfg, c, s, op);
            && e.run.started && e.run.report == s.run.report && e.run.completed == s.run.completed
            && s.run.failures <= e.run.failures && s.run.cleanup.failures <= e.run.cleanup.failures
  {
    if op.Retry? {
      FinishSucceedsExactly(cfg, s, op.env);
    }
  }

  /** After a started run, evidence and failures can only pile up; nothing but cleanup can still change. */
  lemma {:induction false} EvidenceIsIrreversible<W>(cfg: Config, c: Catalog, s: Suite, ops: seq<Op<W>>)
    requires s.run.started
    ensures var e := Replay(cfg, c, s, ops);
            && e.run.started && e.run.report == s.run.report && e.run.completed == s.run.completed
            && s.run.failures <= e.run.failures && s.run.cleanup.failures <= e.run.cleanup.failures
    decreases |ops|
  {
    if ops != [] {
      StepKeepsDamage(cfg, c, s, ops[0]);
      EvidenceIsIrreversible(cfg, c, Step(cfg, c, s, ops[0]), ops[1..]);
    }
  }

  // ---------- damage, whenever it was done ----------

  /** Registrations and completions keep a report consistent, and cannot redeem it. */
  ghost predicate ReportWorsens(d: ReportData, e: ReportData) {
    d.Valid() ==> e.Valid() && (Doomed(d) ==> Doomed(e))
  }

  lemma {:induction false} StepWorsensReport(d: ReportData, op: ReportOp)
    ensures ReportWorsens(d, Apply(d, op))
  {
    if d.Valid() {
      assert ApplyAll(d, [op]) == ApplyAll(Apply(d, op), [op][1..]) == Apply(d, op);
      ReportRefinesMap(d, [op]);
      if Doomed(d) {
        DoomIsForever(d, [op], []);
      }
    }
  }

  lemma {:induction false} PhaseRegistrationWorsens(c: Catalog, d: ReportData, ids: seq<CheckId>)
    ensures ReportWorsens(d, PrepareIds(c, d, ids))
    decreases |ids|
  {
    if ids != [] {
      var op := Registering(ids[0], c.specification(ids[0]).capability);
      StepWorsensReport(d, op);
      PhaseRegistrationWorsens(c, Apply(d, op), ids[1..]);
    }
  }

  lemma {:induction false} RegistrationWorsens(c: Catalog, asynchronous: bool, d: ReportData,
                                               contracts: seq<FileSystemContract>)
    ensures ReportWorsens(d, Prepare(c, asynchronous, d, contracts))
    decreases |contracts|
  {
    if contracts != [] {
      var ids := c.ForContract(contracts[0], asynchronous);
      PhaseRegistrationWorsens(c, d, ids);
      RegistrationWorsens(c, asynchronous, PrepareIds(c, d, ids), contracts[1..]);
    }
  }

  lemma {:induction false} CompletionWorsens(c: Catalog, d: ReportData, id: CheckId,
                                             capability: Option<Capability>, outcome: Outcome)
    ensures ReportWorsens(d, RecordFor(c, d, id, capability, outcome))
  {
    StepWorsensReport(d, Recording(id, capability, outcome, c.specification(id).optional));
  }

  lemma {:induction false} ActionsWorsen(c: Catalog, s: Suite, actions: seq<Action>)
    ensures ReportWorsens(s.run.report, ActAll(c, s, actions).run.report)
    decreases |actions|
  {
    if actions != [] {
      match actions[0] {
        case Completing(id, capability, outcome) => CompletionWorsens(c, s.run.report, id, capability, outcome);
        case _ =>
      }
      ActionsWorsen(c, Act(c, s, actions[0]), actions[1..]);
    }
  }

  lemma {:induction false} FailureWorsens(c: Catalog, s: Suite, failure: ContractFailure)
    ensures ReportWorsens(s.run.report, Fail(c, s, failure).run.report)
  {
    if failure.check.Some? {
      var id := failure.check.value;
      CompletionWorsens(c, s.run.report, id, c.specification(id).capability, Outcome.Failed(MessageOf(failure)));
    }
  }

  lemma {:induction false} PhasesWorsen(c: Catalog, s: Suite, selected: Option<CheckId>, dispatches: seq<Dispatch>)
    ensures ReportWorsens(s.run.report, Phases(c, s, selected, dispatches).0.run.report)
    decreases |dispatches|
  {
    if dispatches != [] {
      ActionsWorsen(c, s, dispatches[0].actions);
      var after := ActAll(c, s, dispatches[0].actions);
      match dispatches[0].ending {
        case Returned => PhasesWorsen(c, after, selected, dispatches[1..]);
        case FailedWith(failure) => FailureWorsens(c, after, failure);
        case PanickedWith(payload) =>
          FailureWorsens(c, after, ContractFailure(selected, Panicked("contract execution panicked", payload)));
        case DroppedInside =>
      }
    }
  }

  /** A failure, a cleanup failure, an interrupted run, or a report no policy accepts. */
  ghost predicate Damaged(s: Suite) {
    && s.run.report.Valid()
    && (s.run.failures != [] || s.run.cleanup.failures != [] || s.run.WasInterrupted() || Doomed(s.run.report))
  }

  lemma {:induction false} RunWorsens<W>(cfg: Config, c: Catalog, s: Suite, contracts: seq<FileSystemContract>,
                                         selected: Option<CheckId>, dispatches: seq<Dispatch>, env: Env<W>)
    requires !s.run.started
    ensures ReportWorsens(s.run.report, RunSelected(cfg, c, s, contracts, selected, dispatches, env).0.run.report)
  {
    var begun := Begun(cfg, c, s, contracts, selected);
    if selected.Some? {
      StepWorsensReport(s.run.report, Registering(selected.value, c.specification(selected.value).capability));
    } else {
      RegistrationWorsens(c, cfg.asynchronous, s.run.report, contracts);
    }
    PhasesWorsen(c, begun, selected, dispatches);
    FinishReflects(cfg, Phases(c, begun, selected, dispatches).0, env);
  }

  lemma {:induction false} RunKeepsDamage<W>(cfg: Config, c: Catalog, s: Suite, contracts: seq<FileSystemContract>,
                                             selected: Option<CheckId>, dispatches: seq<Dispatch>, env: Env<W>)
    requires Damaged(s) && !s.run.started
    ensures Damaged(RunSelected(cfg, c, s, contracts, selected, dispatches, env).0)
  {
    var begun := Begun(cfg, c, s, contracts, selected);
    RunWorsens(cfg, c, s, contracts, selected, dispatches, env);
    PhasesReflect(c, begun, selected, dispatches);
    FinishReflects(cfg, Phases(c, begun, selected, dispatches).0, env);
  }

  lemma {:induction false} DamageStays<W>(cfg: Config, c: Catalog, s: Suite, op: Op<W>)
    requires Damaged(s)
    ensures Damaged(Step(cfg, c, s, op))
  {
    match op
    case Run(contracts, selected, dispatches, env) =>
      if !s.run.started {
        RunKeepsDamage(cfg, c, s, contracts, selected, dispatches, env);
      }
    case Retry(env) => FinishReflects(cfg, s, env);
    case Seed(_, _) =>
  }

  /** Whenever damage was done, before, during or after the run, no continuation satisfies any policy. */
  lemma {:induction false} DamageIsForever<W>(cfg: Config, c: Catalog, s: Suite, ops: seq<Op<W>>,
                                              required: seq<CheckId>)
    requires Damaged(s)
    ensures Damaged(Replay(cfg, c, s, ops)) && !Replay(cfg, c, s, ops).run.RequirementsSatisfiedWith(required)
    decreases |ops|
  {
    if ops == [] {
      if Doomed(s.run.report) {
        DoomedIsUnsatisfied(s.run.report, required);
      }
    } else {
      DamageStays(cfg, c, s, ops[0]);
      DamageIsForever(cfg, c, Step(cfg, c, s, ops[0]), ops[1..], required);
    }
  }

  /** A provider on which everything is already gone. */
  function Vacant(): Provider<()> {
    Provider((w, call) => ((), NotFound), (w, call) => ())
  }

  lemma {:induction false} VacantReleasesEverything(rs: seq<Resource>, recursive: bool)
    ensures var k := Walk(Vacant(), (), recursive, rs, Forever);
            k.finished && k.ledger == [] && k.failures == []
  {
    if rs != [] {
      var n := |rs| - 1;
      VacantReleasesEverything(rs[..n], recursive);
      assert Drive(Vacant(), (), recursive, rs[n], Inspecting, Forever).phase == Over(Released);
    }
  }

  lemma {:induction false} RetryRepairs(cfg: Config, s: Suite, required: seq<CheckId>)
    requires Repairable(s, required)
    ensures Finish(cfg, s, Env(Vacant(), (), Forever, TornDown)).0.run.RequirementsSatisfiedWith(required)
  {
    var env := Env(Vacant(), (), Forever, TornDown);
    VacantReleasesEverything(s.resources, cfg.canRecurse);
    RestoreIsEmptyTogether([]);
    FinishSucceedsExactly(cfg, s, env);
    FinishReflects(cfg, s, env);
    assert Restore(Reverse([])) == [];
  }

  /**
   Once a run was started, some continuation satisfies the policy exactly when
   the run returned with sufficient evidence and no failure of any kind: the only
   shortfall a continuation can repair is a cleanup attempt that was dropped.
   */
  lemma {:induction false} OnlyDroppedCleanupIsRepairable(cfg: Config, c: Catalog, s: Suite, required: seq<CheckId>)
    requires s.run.started
    ensures Repairable(s, required) <==>
            exists ops: seq<Op<()>> :: Replay(cfg, c, s, ops).run.RequirementsSatisfiedWith(required)
  {
    if Repairable(s, required) {
      RetryRepairs(cfg, s, required);
      var op := Retry(Env(Vacant(), (), Forever, TornDown));
      var ops := [op];
      assert ops[0] == op && ops[1..] == [];
      assert Replay(cfg, c, s, ops) == Replay(cfg, c, Step(cfg, c, s, op), ops[1..]) == Step(cfg, c, s, op);
      assert Replay(cfg, c, s, ops).run.RequirementsSatisfiedWith(required);
    }
    if exists ops: seq<Op<()>> :: Replay(cfg, c, s, ops).run.RequirementsSatisfiedWith(required) {
      var ops: seq<Op<()>> :| Replay(cfg, c, s, ops).run.RequirementsSatisfiedWith(required);
      EvidenceIsIrreversible(cfg, c, s, ops);
    }
  }

  /**
   The latest attempt was not both successful and dropped; once the run returned,
   an attempt that was neither has left a complaint.
   */
  predicate Explained(f: Facts) {
    && !(f.lastAttemptSucceeded && f.lastAttemptDropped)
    && (f.returned ==> f.lastAttemptSucceeded || f.lastAttemptDropped || f.cleanupTrouble)
  }

  lemma {:induction false} AttemptIsExplained<W>(cfg: Config, s: Suite, env: Env<W>)
    ensures AttemptSucceeds(cfg, s, env) || AttemptDropped(cfg, s, env) || AttemptTrouble(cfg, s, env)
    ensures !(AttemptSucceeds(cfg, s, env) && AttemptDropped(cfg, s, env))
  {
    FinishReflects(cfg, s, env);
    FinishSucceedsExactly(cfg, s, env);
  }

  lemma {:induction false} StepIsExplained<W>(cfg: Config, c: Catalog, s: Suite, f: Facts, op: Op<W>)
    requires Explained(f)
    ensures Explained(Note(cfg, c, s, f, op))
  {
    match op
    case Run(contracts, selected, dispatches, env) =>
      AttemptIsExplained(cfg, Phases(c, Begun(cfg, c, s, contracts, selected), selected, dispatches).0, env);
    case Retry(env) => AttemptIsExplained(cfg, s, env);
    case Seed(_, _) =>
  }

  lemma {:induction false} HistoryIsExplained<W>(cfg: Config, c: Catalog, s: Suite, f: Facts, ops: seq<Op<W>>)
    requires Explained(f)
    ensures Explained(NoteAll(cfg, c, s, f, ops))
    decreases |ops|
  {
    if ops != [] {
      StepIsExplained(cfg, c, s, f, ops[0]);
      HistoryIsExplained(cfg, c, Step(cfg, c, s, ops[0]), Note(cfg, c, s, f, ops[0]), ops[1..]);
    }
  }

  /**
   Over every history: a session that only its cleanup keeps from being satisfied
   is unsatisfied exactly when its latest attempt was dropped.
   */
  lemma {:induction false} RepairableShortfall<W>(cfg: Config, c: Catalog, ops: seq<Op<W>>, required: seq<CheckId>)
    requires Repairable(Replay(cfg, c, FRESH, ops), required)
    ensures !Replay(cfg, c, FRESH, ops).run.RequirementsSatisfiedWith(required) <==>
            NoteAll(cfg, c, FRESH, NOTHING_NOTED, ops).lastAttemptDropped
  {
    HistoryReflects(cfg, c, FRESH, NOTHING_NOTED, ops);
    HistoryIsExplained(cfg, c, FRESH, NOTHING_NOTED, ops);
  }
}
