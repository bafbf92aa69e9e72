/**
 What one run means: its report, its failures and its verdict, read off the
 selection, the phases that were dispatched and the cleanup attempt.
 */
module RunVerdicts {
  import opened Common
  import opened StableSorting
  import opened Ledger
  import opened Reports
  import opened Histories
  import opened Runs
  import opened Contexts
  import opened Sessions
  import opened Verdicts

  // ---------- what a run registers and completes ----------

  function PhaseRegistrations(c: Catalog, asynchronous: bool, contract: FileSystemContract,
                              ids: seq<CheckId>): seq<ReportOp> {
    if ids == [] then []
    else
      var spec := c.specification(ids[0]);
      (if spec.contract == contract && (asynchronous || !spec.asynchronousOnly)
       then [Registering(ids[0], spec.capability)] else [])
      + PhaseRegistrations(c, asynchronous, contract, ids[1..])
  }

  /** Phase by phase in the order of the selection, each in catalog order; a focused run registers its check alone. */
  function Registrations(c: Catalog, asynchronous: bool, contracts: seq<FileSystemContract>, selected: Option<CheckId>)
    : seq<ReportOp>
    decreases |contracts|
  {
    if selected.Some? then [Registering(selected.value, c.specification(selected.value).capability)]
    else if contracts == [] then []
    else PhaseRegistrations(c, asynchronous, contracts[0], c.order(contracts[0]))
         + Registrations(c, asynchronous, contracts[1..], selected)
  }

  function ActionCompletions(c: Catalog, actions: seq<Action>): seq<ReportOp> {
    if actions == [] then []
    else
      (match actions[0]
       case Completing(id, capability, outcome) => [Recording(id, capability, outcome, c.specification(id).optional)]
       case _ => [])
      + ActionCompletions(c, actions[1..])
  }

  /** A failure attributed to a check completes it as failed; a panic is attributed to the selected check. */
  function EndingCompletions(c: Catalog, ending: Ending, selected: Option<CheckId>): seq<ReportOp> {
    match ending
    case FailedWith(ContractFailure(Some(id), cause)) =>
      [Recording(id, c.specification(id).capability, Outcome.Failed(MessageOf(ending.failure)),
                 c.specification(id).optional)]
    case PanickedWith(_) =>
      if selected.None? then []
      else [Recording(selected.value, c.specification(selected.value).capability,
                      Outcome.Failed("contract execution panicked"), c.specification(selected.value).optional)]
    case _ => []
  }

  function Completions(c: Catalog, made: seq<Dispatch>, selected: Option<CheckId>): seq<ReportOp> {
    if made == [] then []
    else ActionCompletions(c, made[0].actions) + EndingCompletions(c, made[0].ending, selected)
         + Completions(c, made[1..], selected)
  }

  /** Everything the report of a run is told. */
  function Told(cfg: Config, c: Catalog, contracts: seq<FileSystemContract>, selected: Option<CheckId>,
                dispatches: seq<Dispatch>): seq<ReportOp> {
    Registrations(c, cfg.asynchronous, contracts, selected) + Completions(c, Dispatched(dispatches), selected)
  }

  // ---------- the report of a run ----------

  lemma {:induction false} ApplyConcat(d: ReportData, a: seq<ReportOp>, b: seq<ReportOp>)
    ensures ApplyAll(d, a + b) == ApplyAll(ApplyAll(d, a), b)
    decreases |a|
  {
    if a == [] {
      assert a + b == b;
    } else {
      assert (a + b)[1..] == a[1..] + b;
      ApplyConcat(Apply(d, a[0]), a[1..], b);
    }
  }

  lemma {:induction false} ApplyOne(d: ReportData, op: ReportOp)
    ensures ApplyAll(d, [op]) == Apply(d, op)
  {
    assert ApplyAll(d, [op]) == ApplyAll(Apply(d, op), [op][1..]);
  }

  lemma {:induction false} PhaseIsRegistered(c: Catalog, asynchronous: bool, contract: FileSystemContract,
                                             d: ReportData, ids: seq<CheckId>)
    ensures PrepareIds(c, d, c.Applicable(ids, contract, asynchronous)) ==
            ApplyAll(d, PhaseRegistrations(c, asynchronous, contract, ids))
    decreases |ids|
  {
    if ids != [] {
      var spec := c.specification(ids[0]);
      var rest := c.Applicable(ids[1..], contract, asynchronous);
      var ops := PhaseRegistrations(c, asynchronous, contract, ids[1..]);
      if spec.contract == contract && (asynchronous || !spec.asynchronousOnly) {
        var op := Registering(ids[0], spec.capability);
        assert ([ids[0]] + rest)[1..] == rest;
        PhaseIsRegistered(c, asynchronous, contract, Apply(d, op), ids[1..]);
        ApplyConcat(d, [op], ops);
        ApplyOne(d, op);
      } else {
        assert [] + rest == rest && [] + ops == ops;
        PhaseIsRegistered(c, asynchronous, contract, d, ids[1..]);
      }
    }
  }

  lemma {:induction false} SelectionIsRegistered(c: Catalog, asynchronous: bool, d: ReportData,
                                                 contracts: seq<FileSystemContract>, selected: Option<CheckId>)
    ensures Register(c, asynchronous, d, contracts, selected) ==
            ApplyAll(d, Registrations(c, asynchronous, contracts, selected))
    decreases |contracts|
  {
    if selected.Some? {
      ApplyOne(d, Registering(selected.value, c.specification(selected.value).capability));
    } else if contracts != [] {
      var ops := PhaseRegistrations(c, asynchronous, contracts[0], c.order(contracts[0]));
      PhaseIsRegistered(c, asynchronous, contracts[0], d, c.order(contracts[0]));
      SelectionIsRegistered(c, asynchronous, ApplyAll(d, ops), contracts[1..], selected);
      ApplyConcat(d, ops, Registrations(c, asynchronous, contracts[1..], selected));
    }
  }

  lemma {:induction false} ActionsAreTold(c: Catalog, s: Suite, actions: seq<Action>)
    ensures ActAll(c, s, actions).run.report == ApplyAll(s.run.report, ActionCompletions(c, actions))
    decreases |actions|
  {
    if actions != [] {
      var ops := ActionCompletions(c, actions[1..]);
      ActionsAreTold(c, Act(c, s, actions[0]), actions[1..]);
      match actions[0] {
        case Completing(id, capability, outcome) =>
          var op := Recording(id, capability, outcome, c.specification(id).optional);
          ApplyOne(s.run.report, op);
          ApplyConcat(s.run.report, [op], ops);
        case _ =>
          assert [] + ops == ops;
      }
    }
  }

  lemma {:induction false} EndingIsTold(c: Catalog, s: Suite, selected: Option<CheckId>, d: Dispatch)
    requires !d.ending.Returned?
    ensures Phases(c, s, selected, [d]).0.run.report ==
            ApplyAll(ActAll(c, s, d.actions).run.report, EndingCompletions(c, d.ending, selected))
  {
    var report := ActAll(c, s, d.actions).run.report;
    var ops := EndingCompletions(c, d.ending, selected);
    if ops != [] {
      ApplyOne(report, ops[0]);
      assert ops == [ops[0]];
    }
  }

  lemma {:induction false} PhasesAreTold(c: Catalog, s: Suite, selected: Option<CheckId>, dispatches: seq<Dispatch>)
    ensures Phases(c, s, selected, dispatches).0.run.report ==
            ApplyAll(s.run.report, Completions(c, Dispatched(dispatches), selected))
    decreases |dispatches|
  {
    if dispatches != [] {
      var d, made := dispatches[0], Dispatched(dispatches);
      var acts, end := ActionCompletions(c, d.actions), EndingCompletions(c, d.ending, selected);
      assert made == [d] + made[1..];
      ActionsAreTold(c, s, d.actions);
      ApplyConcat(s.run.report, acts, end);
      if d.ending.Returned? {
        assert end == [] && acts + [] == acts && made[1..] == Dispatched(dispatches[1..]);
        PhasesAreTold(c, ActAll(c, s, d.actions), selected, dispatches[1..]);
        ApplyConcat(s.run.report, acts, Completions(c, made[1..], selected));
      } else {
        assert made[1..] == [] && Completions(c, made[1..], selected) == [] && (acts + end) + [] == acts + end;
        EndingIsTold(c, s, selected, d);
        assert Phases(c, s, selected, dispatches) == Phases(c, s, selected, [d]);
      }
    }
  }

  /** The report of a run is the history of its registrations and completions, whatever cleanup did. */
  lemma {:induction false} ReportIsTold<W>(cfg: Config, c: Catalog, contracts: seq<FileSystemContract>,
                                           selected: Option<CheckId>, dispatches: seq<Dispatch>, env: Env<W>)
    ensures RunSelected(cfg, c, FRESH, contracts, selected, dispatches, env).0.run.report ==
            ApplyAll(EMPTY_REPORT, Told(cfg, c, contracts, selected, dispatches))
  {
    var begun := Begun(cfg, c, FRESH, contracts, selected);
    SelectionIsRegistered(c, cfg.asynchronous, EMPTY_REPORT, contracts, selected);
    PhasesAreTold(c, begun, selected, dispatches);
    ApplyConcat(EMPTY_REPORT, Registrations(c, cfg.asynchronous, contracts, selected),
                Completions(c, Dispatched(dispatches), selected));
    FinishReflects(cfg, Phases(c, begun, selected, dispatches).0, env);
  }

  // ---------- the failures of a run ----------

  function NotedFailures(actions: seq<Action>): seq<ContractFailure> {
    if actions == [] then []
    else (if actions[0].NotingFailure? then [actions[0].failure] else []) + NotedFailures(actions[1..])
  }

  function NotedCleanup(actions: seq<Action>): seq<ContractFailure> {
    if actions == [] then []
    else (if actions[0].NotingCleanup? then [actions[0].failure] else []) + NotedCleanup(actions[1..])
  }

  function EndingFailures(ending: Ending, selected: Option<CheckId>): seq<ContractFailure> {
    match ending
    case FailedWith(failure) => [failure]
    case PanickedWith(payload) => [ContractFailure(selected, Panicked("contract execution panicked", payload))]
    case _ => []
  }

  function PhaseFailures(made: seq<Dispatch>, selected: Option<CheckId>): seq<ContractFailure> {
    if made == [] then []
    else NotedFailures(made[0].actions) + EndingFailures(made[0].ending, selected) + PhaseFailures(made[1..], selected)
  }

  function PhaseCleanupNotes(made: seq<Dispatch>): seq<ContractFailure> {
    if made == [] then [] else NotedCleanup(made[0].actions) + PhaseCleanupNotes(made[1..])
  }

  lemma {:induction false} ActionsNote(c: Catalog, s: Suite, actions: seq<Action>)
    ensures ActAll(c, s, actions).run.failures == s.run.failures + NotedFailures(actions)
    ensures ActAll(c, s, actions).run.cleanup.failures == s.run.cleanup.failures + NotedCleanup(actions)
    decreases |actions|
  {
    if actions == [] {
      assert s.run.failures + [] == s.run.failures && s.run.cleanup.failures + [] == s.run.cleanup.failures;
    } else {
      var a, e := actions[0], Act(c, s, actions[0]);
      ActionsNote(c, e, actions[1..]);
      var noted := if a.NotingFailure? then [a.failure] else [];
      var complained := if a.NotingCleanup? then [a.failure] else [];
      assert e.run.failures == s.run.failures + noted;
      assert e.run.cleanup.failures == s.run.cleanup.failures + complained;
      Associates(s.run.failures, noted, NotedFailures(actions[1..]));
      Associates(s.run.cleanup.failures, complained, NotedCleanup(actions[1..]));
    }
  }

  lemma {:induction false} EndingNotes(c: Catalog, s: Suite, selected: Option<CheckId>, d: Dispatch)
    ensures var e := Phases(c, s, selected, [d]).0;
            && e.run.failures == s.run.failures + (NotedFailures(d.actions) + EndingFailures(d.ending, selected))
            && e.run.cleanup.failures == s.run.cleanup.failures + NotedCleanup(d.actions)
  {
    ActionsNote(c, s, d.actions);
    var after := ActAll(c, s, d.actions);
    Associates(s.run.failures, NotedFailures(d.actions), EndingFailures(d.ending, selected));
    assert after.run.failures + [] == after.run.failures;
    assert d.ending.Returned? ==> Phases(c, after, selected, [d][1..]) == (after, AllReturned);
  }

  lemma {:induction false} PhasesNote(c: Catalog, s: Suite, selected: Option<CheckId>, dispatches: seq<Dispatch>)
    ensures var e := Phases(c, s, selected, dispatches).0;
            && e.run.failures == s.run.failures + PhaseFailures(Dispatched(dispatches), selected)
            && e.run.cleanup.failures == s.run.cleanup.failures + PhaseCleanupNotes(Dispatched(dispatches))
    decreases |dispatches|
  {
    if dispatches == [] {
      assert s.run.failures + [] == s.run.failures && s.run.cleanup.failures + [] == s.run.cleanup.failures;
    } else {
      var d, made := dispatches[0], Dispatched(dispatches);
      assert made == [d] + made[1..];
      EndingNotes(c, s, selected, d);
      var noted := NotedFailures(d.actions) + EndingFailures(d.ending, selected);
      if d.ending.Returned? {
        assert made[1..] == Dispatched(dispatches[1..]);
        assert Phases(c, s, selected, [d]).0 == ActAll(c, s, d.actions);
        PhasesNote(c, ActAll(c, s, d.actions), selected, dispatches[1..]);
        Associates(s.run.failures, noted, PhaseFailures(made[1..], selected));
        Associates(s.run.cleanup.failures, NotedCleanup(d.actions), PhaseCleanupNotes(made[1..]));
      } else {
        assert made[1..] == [] && noted + [] == noted && NotedCleanup(d.actions) + [] == NotedCleanup(d.actions);
        assert Phases(c, s, selected, dispatches) == Phases(c, s, selected, [d]);
      }
    }
  }

  const CLEANUP_FAILED := ContractFailure(None, Message("cleanup failed"))

  /**
   The failures of a run are those its phases noted or ended with, in order, and one
   more when its cleanup attempt returned without success; it is completed exactly
   when that attempt returned.
   */
  lemma {:induction false} RunFailuresExactly<W>(cfg: Config, c: Catalog, contracts: seq<FileSystemContract>,
                                                 selected: Option<CheckId>, dispatches: seq<Dispatch>, env: Env<W>)
    ensures var (after, phases) := Phases(c, Begun(cfg, c, FRESH, contracts, selected), selected, dispatches);
            var (e, result) := RunSelected(cfg, c, FRESH, contracts, selected, dispatches, env);
            && e.run.failures == PhaseFailures(Dispatched(dispatches), selected) +
                 (if result.Completed? && !AttemptSucceeds(cfg, after, env) then [CLEANUP_FAILED] else [])
            && (result.Completed? <==> !phases.DroppedMidway? && !AttemptDropped(cfg, after, env))
            && (e.run.completed <==> result.Completed?) && !result.Refused?
  {
    var begun := Begun(cfg, c, FRESH, contracts, selected);
    var (after, phases) := Phases(c, begun, selected, dispatches);
    PhasesNote(c, begun, selected, dispatches);
    PhasesKeepLifecycle(c, begun, selected, dispatches);
    var noted := PhaseFailures(Dispatched(dispatches), selected);
    assert [] + noted == noted && noted + [] == noted;
    FinishReflects(cfg, after, env);
    FinishSucceedsExactly(cfg, after, env);
  }

  // ---------- the verdict of a run ----------

  /** All phases were dispatched and returned, and noted no failure of any kind. */
  predicate Quiet(dispatches: seq<Dispatch>) {
    forall d | d in dispatches ::
      d.ending.Returned? && forall a | a in d.actions :: !a.NotingFailure? && !a.NotingCleanup?
  }

  lemma {:induction false} QuietIsUntroubled(dispatches: seq<Dispatch>)
    ensures Quiet(dispatches) <==>
            (forall d | d in Dispatched(dispatches) :: !Troubled(d) && !NotesCleanup(d) && !d.ending.DroppedInside?)
    ensures Quiet(dispatches) ==> Dispatched(dispatches) == dispatches
  {
    if dispatches != [] {
      var d, made := dispatches[0], Dispatched(dispatches);
      assert dispatches == [d] + dispatches[1..] && made == [d] + made[1..];
      assert d in made;
      if d.ending.Returned? {
        QuietIsUntroubled(dispatches[1..]);
        assert made[1..] == Dispatched(dispatches[1..]);
      }
    }
  }

  /**
   A run on a fresh suite meets a policy exactly when every phase was dispatched,
   returned and noted no failure, the cleanup attempt succeeded, every registered
   check was registered once and completed exactly once with sufficient evidence,
   nothing else was completed, and the policy asks for nothing that was not registered.
   */
  lemma {:induction false} RunSatisfiedIff<W>(cfg: Config, c: Catalog, contracts: seq<FileSystemContract>,
                                              selected: Option<CheckId>, dispatches: seq<Dispatch>, env: Env<W>,
                                              required: seq<CheckId>)
    ensures var told := Told(cfg, c, contracts, selected, dispatches);
            var after := Phases(c, Begun(cfg, c, FRESH, contracts, selected), selected, dispatches).0;
            RunSelected(cfg, c, FRESH, contracts, selected, dispatches, env).0.run.RequirementsSatisfiedWith(required)
            <==>
            && Quiet(dispatches) && AttemptSucceeds(cfg, after, env)
            && Orderly(told) && Complete(told, required)
  {
    var (after, phases) := Phases(c, Begun(cfg, c, FRESH, contracts, selected), selected, dispatches);
    var told := Told(cfg, c, contracts, selected, dispatches);
    ReportIsTold(cfg, c, contracts, selected, dispatches, env);
    SatisfiedIffOrderlyAndComplete(told, required);
    ExecutionSatisfiedIff(cfg, c, contracts, selected, dispatches, env);
  }

  lemma {:induction false} ExecutionSatisfiedIff<W>(cfg: Config, c: Catalog, contracts: seq<FileSystemContract>,
                                                    selected: Option<CheckId>, dispatches: seq<Dispatch>, env: Env<W>)
    ensures var after := Phases(c, Begun(cfg, c, FRESH, contracts, selected), selected, dispatches).0;
            RunSelected(cfg, c, FRESH, contracts, selected, dispatches, env).0.run.ExecutionSatisfied() <==>
            Quiet(dispatches) && AttemptSucceeds(cfg, after, env)
  {
    var begun := Begun(cfg, c, FRESH, contracts, selected);
    var (after, phases) := Phases(c, begun, selected, dispatches);
    var f := NoteDispatches(NOTHING_NOTED.(runs := 1), Dispatched(dispatches));
    RunReflects(cfg, c, FRESH, NOTHING_NOTED, contracts, selected, dispatches, env);
    RunFailuresExactly(cfg, c, contracts, selected, dispatches, env);
    BegunReflects(cfg, c, FRESH, NOTHING_NOTED, contracts, selected, dispatches);
    QuietIsUntroubled(dispatches);
    DropsAreSeen(c, begun, selected, dispatches);
    FinishReflects(cfg, after, env);
    AttemptIsExplained(cfg, after, env);
    if AttemptSucceeds(cfg, after, env) {
      SuccessHasNoTrouble(cfg, after, env);
    }
  }

  lemma {:induction false} SuccessHasNoTrouble<W>(cfg: Config, s: Suite, env: Env<W>)
    requires AttemptSucceeds(cfg, s, env)
    ensures !AttemptTrouble(cfg, s, env)
  {
    if cfg.canDelete {
      AttemptAccounts(cfg, env, s.resources);
    }
  }

  lemma {:induction false} DropsAreSeen(c: Catalog, s: Suite, selected: Option<CheckId>, dispatches: seq<Dispatch>)
    ensures Phases(c, s, selected, dispatches).1.DroppedMidway? <==>
            exists d | d in Dispatched(dispatches) :: d.ending.DroppedInside?
    decreases |dispatches|
  {
    if dispatches != [] {
      var d, made := dispatches[0], Dispatched(dispatches);
      assert made == [d] + made[1..] && d in made;
      if d.ending.Returned? {
        assert made[1..] == Dispatched(dispatches[1..]);
        DropsAreSeen(c, ActAll(c, s, d.actions), selected, dispatches[1..]);
      }
    }
  }

  // ---------- focused runs ----------

  /** A focused run registers its check alone, before any phase: pending, not run, with the catalog's capability. */
  lemma {:induction false} FocusedRegistration(cfg: Config, c: Catalog, contracts: seq<FileSystemContract>, id: CheckId)
    ensures var e := Begun(cfg, c, FRESH, contracts, Some(id)).run.report;
            && e.Valid() && e.violations == [] && e.expected == [id] == e.pending
            && |e.checks| == 1 && e.checks[0].id == id && e.checks[0].outcome.NotRun?
            && e.checks[0].capability == c.specification(id).capability
  {
    RegisterRefinesMap(EMPTY_REPORT, id, c.specification(id).capability);
  }

  /** The actions complete `id` once, with sufficient evidence, and complete nothing else. */
  predicate CompletesAlone(c: Catalog, actions: seq<Action>, id: CheckId, required: seq<CheckId>) {
    exists i | 0 <= i < |actions| :: AloneAt(c, actions, i, id, required)
  }

  predicate AloneAt(c: Catalog, actions: seq<Action>, i: int, id: CheckId, required: seq<CheckId>)
    requires 0 <= i < |actions|
  {
    && actions[i].Completing? && actions[i].id == id && Sufficient(actions[i].outcome, id in required)
    && (actions[i].outcome.SkippedOptional? ==> c.specification(id).optional)
    && forall j | 0 <= j < |actions| && j != i :: !actions[j].Completing?
  }

  predicate LoneRecording(ops: seq<ReportOp>, id: CheckId, required: seq<CheckId>) {
    && |ops| == 1 && ops[0].Recording? && ops[0].id == id && Sufficient(ops[0].outcome, id in required)
    && (ops[0].outcome.SkippedOptional? ==> ops[0].optional)
  }

  lemma {:induction false} NoCompletions(c: Catalog, actions: seq<Action>)
    ensures ActionCompletions(c, actions) == [] <==> forall a | a in actions :: !a.Completing?
    ensures forall op | op in ActionCompletions(c, actions) :: op.Recording?
  {
    if actions != [] {
      NoCompletions(c, actions[1..]);
      assert actions == [actions[0]] + actions[1..];
    }
  }

  lemma {:induction false} CompletesAloneIff(c: Catalog, actions: seq<Action>, id: CheckId, required: seq<CheckId>)
    ensures CompletesAlone(c, actions, id, required) <==> LoneRecording(ActionCompletions(c, actions), id, required)
  {
    if actions != [] {
      var rest := actions[1..];
      NoCompletions(c, rest);
      CompletesAloneIff(c, rest, id, required);
      if actions[0].Completing? {
        AloneAtFirst(c, actions, id, required);
      } else {
        AloneLater(c, actions, id, required);
        assert [] + ActionCompletions(c, rest) == ActionCompletions(c, rest);
      }
    }
  }

  lemma {:induction false} AloneAtFirst(c: Catalog, actions: seq<Action>, id: CheckId, required: seq<CheckId>)
    requires actions != [] && actions[0].Completing?
    ensures CompletesAlone(c, actions, id, required) <==>
            LoneRecording(ActionCompletions(c, actions), id, required)
  {
    var rest := actions[1..];
    NoCompletions(c, rest);
    assert forall j | 0 <= j < |rest| :: rest[j] == actions[j + 1];
    assert (forall a | a in rest :: !a.Completing?) <==> forall j | 0 < j < |actions| :: !actions[j].Completing?;
    assert CompletesAlone(c, actions, id, required) <==> AloneAt(c, actions, 0, id, required);
  }

  lemma {:induction false} AloneLater(c: Catalog, actions: seq<Action>, id: CheckId, required: seq<CheckId>)
    requires actions != [] && !actions[0].Completing?
    ensures CompletesAlone(c, actions, id, required) <==> CompletesAlone(c, actions[1..], id, required)
  {
    var rest := actions[1..];
    assert forall j | 0 <= j < |rest| :: rest[j] == actions[j + 1];
    if i :| 0 <= i < |rest| && AloneAt(c, rest, i, id, required) {
      forall j | 0 <= j < |actions| && j != i + 1 ensures !actions[j].Completing? {
        assert j == 0 || actions[j] == rest[j - 1];
      }
      assert AloneAt(c, actions, i + 1, id, required);
    }
    if i :| 0 <= i < |actions| && AloneAt(c, actions, i, id, required) {
      assert AloneAt(c, rest, i - 1, id, required);
    }
  }

  lemma {:induction false} FocusIsOrderly(id: CheckId, capability: Option<Capability>, ops: seq<ReportOp>,
                                          required: seq<CheckId>)
    requires forall op | op in ops :: op.Recording?
    ensures var told := [Registering(id, capability)] + ops;
            Orderly(told) && Complete(told, required) <==>
            LoneRecording(ops, id, required) && forall r | r in required :: r == id
  {
    var first := Registering(id, capability);
    var told := [first] + ops;
    assert told[0] == first && told[1..] == ops && told[..0] == [];
    assert forall op :: op in told <==> op == first || op in ops;
    assert RegisteredIn(told) == {id} && CompletedIn(told) == CompletedIn(ops);
    if Orderly(told) && Complete(told, required) {
      assert id in CompletedIn(ops);
      OnlyOne(id, capability, ops);
    }
    if LoneRecording(ops, id, required) && forall r | r in required :: r == id {
      assert ops == [ops[0]];
      LoneIsOrderly(id, capability, ops[0]);
    }
  }

  /** After one registration an orderly history completes at most once, and nothing else. */
  lemma {:induction false} OnlyOne(id: CheckId, capability: Option<Capability>, ops: seq<ReportOp>)
    requires ops != [] && forall op | op in ops :: op.Recording?
    requires Orderly([Registering(id, capability)] + ops)
    ensures |ops| == 1 && ops[0].id == id && (ops[0].outcome.SkippedOptional? ==> ops[0].optional)
  {
    var first := Registering(id, capability);
    var told := [first] + ops;
    assert told[..1] == [first] && told[1] == ops[0] && RegisteredIn([first]) == {id};
    assert ops[0] in ops && ops[0].Recording? && OrderlyAt(told[..1], told[1]);
    assert ops[0].id in {id};
    if |ops| > 1 {
      SecondIsDisorderly(id, capability, ops);
    }
  }

  lemma {:induction false} SecondIsDisorderly(id: CheckId, capability: Option<Capability>, ops: seq<ReportOp>)
    requires |ops| > 1 && forall op | op in ops :: op.Recording?
    ensures !Orderly([Registering(id, capability)] + ops)
  {
    var first := Registering(id, capability);
    var told := [first] + ops;
    assert ops[0] in ops && ops[1] in ops;
    assert told[..1] == [first] && told[..2] == [first, ops[0]] && told[1] == ops[0] && told[2] == ops[1];
    assert [first, ops[0]][1] == ops[0] && ops[0].id in CompletedIn([first, ops[0]]);
    assert RegisteredIn([first]) == {id} && RegisteredIn([first, ops[0]]) == {id};
    assert !OrderlyAt(told[..1], told[1]) || !OrderlyAt(told[..2], told[2]);
  }

  lemma {:induction false} LoneIsOrderly(id: CheckId, capability: Option<Capability>, op: ReportOp)
    requires op.Recording? && op.id == id && (op.outcome.SkippedOptional? ==> op.optional)
    ensures Orderly([Registering(id, capability)] + [op]) && CompletedIn([op]) == {id}
  {
    var first := Registering(id, capability);
    var told := [first] + [op];
    assert told[..0] == [] && told[..1] == [first] && RegisteredIn([first]) == {id};
    assert op in [op];
  }

  /**
   A focused run meets a policy exactly when its check was dispatched, completed it
   once with sufficient evidence and completed nothing else, returned without noting a
   failure, the cleanup attempt succeeded, and the policy asks for nothing else.
   */
  lemma {:induction false} FocusedRunSatisfiedIff<W>(cfg: Config, c: Catalog, contract: FileSystemContract, id: CheckId,
                                                     d: Dispatch, env: Env<W>, required: seq<CheckId>)
    ensures var after := Phases(c, Begun(cfg, c, FRESH, [contract], Some(id)), Some(id), [d]).0;
            RunSelected(cfg, c, FRESH, [contract], Some(id), [d], env).0.run.RequirementsSatisfiedWith(required) <==>
            && Quiet([d]) && AttemptSucceeds(cfg, after, env)
            && CompletesAlone(c, d.actions, id, required) && forall r | r in required :: r == id
  {
    RunSatisfiedIff(cfg, c, [contract], Some(id), [d], env, required);
    var capability := c.specification(id).capability;
    var acts, end := ActionCompletions(c, d.actions), EndingCompletions(c, d.ending, Some(id));
    NoCompletions(c, d.actions);
    CompletesAloneIff(c, d.actions, id, required);
    if Quiet([d]) {
      assert d in [d] && Dispatched([d]) == [d] + Dispatched([]) == [d];
      assert Completions(c, [d], Some(id)) == acts + end + Completions(c, [], Some(id)) == acts;
      FocusIsOrderly(id, capability, acts, required);
    }
  }

  /**
   A focused run whose check panics before completing it records it as failed, keeps
   the panic, and satisfies nothing.
   */
  lemma {:induction false} FocusedPanicIsFailed<W>(cfg: Config, c: Catalog, contract: FileSystemContract, id: CheckId,
                                                   d: Dispatch, env: Env<W>, required: seq<CheckId>)
    requires d.ending.PanickedWith? && forall a | a in d.actions :: !a.Completing?
    ensures var e := RunSelected(cfg, c, FRESH, [contract], Some(id), [d], env).0;
            && e.run.report.checks ==
               [Check(id, c.specification(id).capability, Outcome.Failed("contract execution panicked"))]
            && e.run.report.pending == [] && e.run.report.violations == []
            && ContractFailure(Some(id), Panicked("contract execution panicked", d.ending.payload)) in e.run.failures
            && !e.run.RequirementsSatisfiedWith(required)
  {
    var capability, optional := c.specification(id).capability, c.specification(id).optional;
    var failed := Outcome.Failed("contract execution panicked");
    NoCompletions(c, d.actions);
    PanicIsTold(cfg, c, contract, id, d);
    ReportIsTold(cfg, c, [contract], Some(id), [d], env);
    OnePairReport(id, capability, failed, optional);
    PanicIsNoted(cfg, c, contract, id, d, env);
    assert d in [d];
    StoppedRunIsUnsatisfied(cfg, c, [contract], Some(id), [d], env, d, required);
  }

  lemma {:induction false} PanicIsTold(cfg: Config, c: Catalog, contract: FileSystemContract, id: CheckId, d: Dispatch)
    requires d.ending.PanickedWith? && ActionCompletions(c, d.actions) == []
    ensures Told(cfg, c, [contract], Some(id), [d]) ==
            [Registering(id, c.specification(id).capability),
             Recording(id, c.specification(id).capability, Outcome.Failed("contract execution panicked"),
                       c.specification(id).optional)]
  {
    assert Dispatched([d]) == [d];
    assert Completions(c, [d], Some(id)) == EndingCompletions(c, d.ending, Some(id));
  }

  lemma {:induction false} OnePairReport(id: CheckId, capability: Option<Capability>, outcome: Outcome, optional: bool)
    requires !outcome.SkippedOptional?
    ensures ApplyAll(EMPTY_REPORT, [Registering(id, capability), Recording(id, capability, outcome, optional)]) ==
            ReportData([Check(id, capability, outcome)], [id], [], [])
  {
    var first, last := Registering(id, capability), Recording(id, capability, outcome, optional);
    assert [first, last] == [first] + [last];
    ApplyConcat(EMPTY_REPORT, [first], [last]);
    ApplyOne(EMPTY_REPORT, first);
    var d, done := Apply(EMPTY_REPORT, first), Check(id, capability, outcome);
    ApplyOne(d, last);
    assert d.expected == [id] == d.pending && |d.checks| == 1 && d.violations == [];
    assert d.checks[0].id == id && d.checks[0] in d.checks && d.Checked(id);
    assert Except([id], id) == Except([id][1..], id) == [];
    assert Reports.Completed(d.checks, done) == [done];
    assert Apply(d, last).violations == [] + ([] + []);
  }

  lemma {:induction false} PanicIsNoted<W>(cfg: Config, c: Catalog, contract: FileSystemContract, id: CheckId,
                                           d: Dispatch, env: Env<W>)
    requires d.ending.PanickedWith?
    ensures ContractFailure(Some(id), Panicked("contract execution panicked", d.ending.payload)) in
            RunSelected(cfg, c, FRESH, [contract], Some(id), [d], env).0.run.failures
  {
    RunFailuresExactly(cfg, c, [contract], Some(id), [d], env);
    assert Dispatched([d]) == [d];
    var ending := EndingFailures(d.ending, Some(id));
    assert ending[0] in ending;
  }

  /** A run whose check failed, panicked or was dropped satisfies nothing, focused or not. */
  lemma {:induction false} StoppedRunIsUnsatisfied<W>(cfg: Config, c: Catalog, contracts: seq<FileSystemContract>,
                                                      selected: Option<CheckId>, dispatches: seq<Dispatch>, env: Env<W>,
                                                      d: Dispatch, required: seq<CheckId>)
    requires d in dispatches && !d.ending.Returned?
    ensures !RunSelected(cfg, c, FRESH, contracts, selected, dispatches, env).0.run.RequirementsSatisfiedWith(required)
  {
    RunSatisfiedIff(cfg, c, contracts, selected, dispatches, env, required);
  }

  /** A failure attributed to a pending check completes it as failed, with the failure's own message. */
  lemma {:induction false} FailureIsRecorded(c: Catalog, s: Suite, id: CheckId, text: string)
    requires id in s.run.report.pending
    ensures var e := Fail(c, s, ContractFailure(Some(id), Message(text)));
            && Check(id, c.specification(id).capability, Outcome.Failed(text)) in e.run.report.checks
            && id !in e.run.report.pending
            && e.run.failures == s.run.failures + [ContractFailure(Some(id), Message(text))]
  {
    RecordMeans(s.run.report, id, c.specification(id).capability, Outcome.Failed(text), c.specification(id).optional);
  }
}
