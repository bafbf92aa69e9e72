/** Registration of a whole selection, and what an early stop leaves for the phases after it. */
module Frontier {
  import opened Common
  import opened StableSorting
  import Ledger
  import opened Reports
  import opened Runs
  import opened Contexts
  import opened Sessions

  /** Every check of the selection, phase by phase. */
  function AllIds(c: Catalog, asynchronous: bool, contracts: seq<FileSystemContract>): (ids: seq<CheckId>)
    ensures forall id | id in ids :: c.specification(id).contract in contracts
    ensures forall p, id | p in contracts && id in c.ForContract(p, asynchronous) :: id in ids
    ensures forall id | id in ids ::
              id in c.order(c.specification(id).contract) && (asynchronous || !c.specification(id).asynchronousOnly)
  {
    if contracts == [] then []
    else c.ForContract(contracts[0], asynchronous) + AllIds(c, asynchronous, contracts[1..])
  }

  /** Everything registered so far is listed and pending, and nothing was complained about. */
  ghost predicate Untouched(d: ReportData) {
    d.Valid() && d.violations == [] && d.pending == d.expected == Ids(d.checks)
  }

  /** Every check carries the catalog's capability and has not been run. */
  predicate Placeholders(c: Catalog, checks: seq<Check>) {
    forall k | k in checks :: k.capability == c.specification(k.id).capability && k.outcome.NotRun?
  }

  lemma {:induction false} RegisteringIds(c: Catalog, d: ReportData, ids: seq<CheckId>)
    requires Untouched(d) && Distinct(ids) && forall id | id in ids :: id !in d.expected
    ensures var e := PrepareIds(c, d, ids);
            && Untouched(e) && e.expected == d.expected + ids
            && (Placeholders(c, d.checks) ==> Placeholders(c, e.checks))
    decreases |ids|
  {
    if ids == [] {
      assert d.expected + ids == d.expected;
    } else {
      var capability := c.specification(ids[0]).capability;
      RegisteringOne(d, ids[0], capability);
      assert ids[0] !in ids[1..];
      RegisteringIds(c, RegisteredData(d, ids[0], capability), ids[1..]);
      assert [ids[0]] + ids[1..] == ids;
      Associates(d.expected, [ids[0]], ids[1..]);
    }
  }

  lemma {:induction false} RegisteringOne(d: ReportData, id: CheckId, capability: Option<Capability>)
    requires Untouched(d) && id !in d.expected
    ensures Untouched(RegisteredData(d, id, capability))
    ensures RegisteredData(d, id, capability).expected == d.expected + [id]
  {
    RegisterRefinesMap(d, id, capability);
    IdsAfterAppend(d.checks, Check(id, capability, NotRun("check not yet executed")));
  }

  /** Registering distinct phases registers each of their checks once, all pending, with nothing to complain about. */
  lemma {:induction false} RegistrationIsClean(c: Catalog, asynchronous: bool, d: ReportData,
                                               contracts: seq<FileSystemContract>)
    requires Untouched(d) && Distinct(contracts)
    requires forall p | p in contracts :: Distinct(c.order(p))
    requires forall id | id in d.expected :: c.specification(id).contract !in contracts
    ensures var e := Prepare(c, asynchronous, d, contracts);
            && Untouched(e) && e.expected == d.expected + AllIds(c, asynchronous, contracts)
            && (Placeholders(c, d.checks) ==> Placeholders(c, e.checks))
    decreases |contracts|
  {
    if contracts == [] {
      assert d.expected + [] == d.expected;
    } else {
      var ids := c.ForContract(contracts[0], asynchronous);
      RegisteringFirst(c, asynchronous, d, contracts);
      RegistrationIsClean(c, asynchronous, PrepareIds(c, d, ids), contracts[1..]);
      Associates(d.expected, ids, AllIds(c, asynchronous, contracts[1..]));
    }
  }

  lemma {:induction false} RegisteringFirst(c: Catalog, asynchronous: bool, d: ReportData,
                                            contracts: seq<FileSystemContract>)
    requires Untouched(d) && Distinct(contracts) && contracts != [] && Distinct(c.order(contracts[0]))
    requires forall id | id in d.expected :: c.specification(id).contract !in contracts
    ensures var ids := c.ForContract(contracts[0], asynchronous);
            var e := PrepareIds(c, d, ids);
            && Untouched(e) && e.expected == d.expected + ids && Distinct(contracts[1..])
            && (Placeholders(c, d.checks) ==> Placeholders(c, e.checks))
            && (forall id | id in e.expected :: c.specification(id).contract !in contracts[1..])
  {
    ApplicableDistinct(c, c.order(contracts[0]), contracts[0], asynchronous);
    RegisteringIds(c, d, c.ForContract(contracts[0], asynchronous));
    assert contracts[0] !in contracts[1..];
  }

  /**
   What a selection of distinct phases leaves in a fresh report: its checks, each
   once, not run, with the catalog's capability; a blocking one has no asynchronous-only
   check, and no check that its driver can run is missing.
   */
  lemma {:induction false} SelectionOnFresh(cfg: Config, c: Catalog, contracts: seq<FileSystemContract>)
    requires Distinct(contracts) && forall p | p in contracts :: Distinct(c.order(p))
    ensures var e := Begun(cfg, c, FRESH, contracts, None).run.report;
            && e.Valid() && e.violations == [] && e.expected == e.pending == Ids(e.checks) && Placeholders(c, e.checks)
            && forall id :: id in e.expected <==>
                 var spec := c.specification(id);
                 && spec.contract in contracts && id in c.order(spec.contract)
                 && (cfg.asynchronous || !spec.asynchronousOnly)
  {
    RegistrationIsClean(c, cfg.asynchronous, EMPTY_REPORT, contracts);
    assert [] + AllIds(c, cfg.asynchronous, contracts) == AllIds(c, cfg.asynchronous, contracts);
    AllIdsExactly(c, cfg.asynchronous, contracts);
  }

  lemma {:induction false} AllIdsExactly(c: Catalog, asynchronous: bool, contracts: seq<FileSystemContract>)
    ensures forall id :: id in AllIds(c, asynchronous, contracts) <==>
              var spec := c.specification(id);
              spec.contract in contracts && id in c.order(spec.contract) && (asynchronous || !spec.asynchronousOnly)
  {
    forall id | c.specification(id).contract in contracts && id in c.order(c.specification(id).contract)
                && (asynchronous || !c.specification(id).asynchronousOnly)
      ensures id in AllIds(c, asynchronous, contracts)
    {
      assert id in c.ForContract(c.specification(id).contract, asynchronous);
    }
  }

  // ---------- early stop ----------

  /** A dispatch that only completes checks of its own phase. */
  predicate Owns(c: Catalog, contract: FileSystemContract, d: Dispatch) {
    && (forall a | a in d.actions && a.Completing? :: c.specification(a.id).contract == contract)
    && (d.ending.FailedWith? && d.ending.failure.check.Some? ==>
          c.specification(d.ending.failure.check.value).contract == contract)
  }

  predicate Stops(d: Dispatch) {
    d.ending.FailedWith? || d.ending.PanickedWith?
  }

  /** The report is consistent, logs no repeated registration, and lists the check as pending and not run. */
  ghost predicate Waiting(d: ReportData, id: CheckId) {
    && d.Valid() && id in d.pending && ListedNotRun(d.checks, id)
    && forall v | v in d.violations :: !v.DuplicateRegistration?
  }

  predicate ListedNotRun(checks: seq<Check>, id: CheckId) {
    exists c | c in checks :: c.id == id && c.outcome.NotRun?
  }

  lemma {:induction false} CompletionKeepsListed(checks: seq<Check>, done: Check, id: CheckId)
    requires ListedNotRun(checks, id) && done.id != id
    ensures ListedNotRun(Reports.Completed(checks, done), id) && ListedNotRun(checks + [done], id)
  {
    var c :| c in checks && c.id == id && c.outcome.NotRun?;
    CompletedKeepsIds(checks, done);
    assert c in Reports.Completed(checks, done) && c in checks + [done];
  }

  lemma {:induction false} RecordingKeepsWaiting(c: Catalog, d: ReportData, other: CheckId,
                                                 capability: Option<Capability>, outcome: Outcome, id: CheckId)
    requires Waiting(d, id) && other != id
    ensures Waiting(RecordFor(c, d, other, capability, outcome), id)
  {
    RecordRefinesMap(d, other, capability, outcome, c.specification(other).optional);
    CompletionKeepsListed(d.checks, Check(other, capability, outcome), id);
  }

  lemma {:induction false} ActingKeepsWaiting(c: Catalog, s: Suite, actions: seq<Action>, id: CheckId)
    requires Waiting(s.run.report, id)
    requires forall a | a in actions && a.Completing? :: a.id != id
    ensures Waiting(ActAll(c, s, actions).run.report, id)
    decreases |actions|
  {
    if actions != [] {
      var a := actions[0];
      if a.Completing? {
        RecordingKeepsWaiting(c, s.run.report, a.id, a.capability, a.outcome, id);
      }
      ActingKeepsWaiting(c, Act(c, s, a), actions[1..], id);
    }
  }

  lemma {:induction false} StoppedPhasesKeepWaiting(c: Catalog, s: Suite, contracts: seq<FileSystemContract>,
                                                    dispatches: seq<Dispatch>, k: nat, id: CheckId)
    requires k < |dispatches| <= |contracts|
    requires forall i | 0 <= i < k :: dispatches[i].ending.Returned?
    requires Stops(dispatches[k])
    requires forall i | 0 <= i <= k ::
               Owns(c, contracts[i], dispatches[i]) && c.specification(id).contract != contracts[i]
    requires Waiting(s.run.report, id)
    ensures Waiting(Phases(c, s, None, dispatches).0.run.report, id)
    decreases k
  {
    var d := dispatches[0];
    ActingKeepsWaiting(c, s, d.actions, id);
    var after := ActAll(c, s, d.actions);
    if k > 0 {
      StoppedPhasesKeepWaiting(c, after, contracts[1..], dispatches[1..], k - 1, id);
    } else if d.ending.FailedWith? && d.ending.failure.check.Some? {
      var failed := d.ending.failure.check.value;
      RecordingKeepsWaiting(c, after.run.report, failed, c.specification(failed).capability,
                            Outcome.Failed(MessageOf(d.ending.failure)), id);
    }
  }

  /** Whatever later phases would have done makes no difference. */
  lemma {:induction false} LaterPhasesAreNotDispatched(c: Catalog, s: Suite, selected: Option<CheckId>,
                                                       dispatches: seq<Dispatch>, k: nat)
    requires k < |dispatches| && Stops(dispatches[k])
    requires forall i | 0 <= i < k :: dispatches[i].ending.Returned?
    ensures Phases(c, s, selected, dispatches) == Phases(c, s, selected, dispatches[..k + 1])
    ensures Phases(c, s, selected, dispatches).1 == Stopped && Phases(c, s, selected, dispatches).0.run.failures != []
    decreases k
  {
    if k > 0 {
      LaterPhasesAreNotDispatched(c, ActAll(c, s, dispatches[0].actions), selected, dispatches[1..], k - 1);
      assert dispatches[1..][..k] == dispatches[..k + 1][1..];
    }
  }

  /**
   If phase `k` fails or panics: later phases are not dispatched, their checks
   are all registered and still waiting, nothing was registered twice, cleanup
   was attempted once, the run is marked completed unless cleanup or teardown was
   dropped, and no policy is satisfied.
   */
  lemma {:induction false} EarlyStopKeepsFrontier<W>(cfg: Config, c: Catalog, contracts: seq<FileSystemContract>,
                                  dispatches: seq<Dispatch>, k: nat, env: Env<W>, required: seq<CheckId>)
    requires k < |dispatches| == |contracts| && Distinct(contracts)
    requires forall p | p in contracts :: Distinct(c.order(p))
    requires forall i | 0 <= i < k :: dispatches[i].ending.Returned?
    requires Stops(dispatches[k])
    requires forall i | 0 <= i <= k :: Owns(c, contracts[i], dispatches[i])
    ensures var (e, result) := RunSelected(cfg, c, FRESH, contracts, None, dispatches, env);
            && (e, result) == RunSelected(cfg, c, FRESH, contracts, None, dispatches[..k + 1], env)
            && (forall j, id | k < j < |contracts| && id in c.ForContract(contracts[j], cfg.asynchronous) ::
                  Waiting(e.run.report, id))
            && e.run.cleanup.attempts == 1 && !result.Refused? && (e.run.completed <==> result.Completed?)
            && ((cfg.asynchronous && !env.life.Forever?) || env.teardown.TeardownDropped? || result.Completed?)
            && !e.run.RequirementsSatisfiedWith(required)
  {
    var begun := Begun(cfg, c, FRESH, contracts, None);
    LaterPhasesAreNotDispatched(c, begun, None, dispatches, k);
    PhasesKeepLifecycle(c, begun, None, dispatches);
    var after := Phases(c, begun, None, dispatches).0;
    FinishSucceedsExactly(cfg, after, env);
    UndroppedFinishReturns(cfg, after, env);
    LaterChecksWait(cfg, c, contracts, dispatches, k);
  }

  lemma {:induction false} UndroppedFinishReturns<W>(cfg: Config, s: Suite, env: Env<W>)
    ensures (cfg.asynchronous && !env.life.Forever?) || env.teardown.TeardownDropped?
            || !Finish(cfg, s, env).1.Interrupted?
  {
    if cfg.canDelete && (!cfg.asynchronous || env.life.Forever?) {
      Ledger.WalkForeverFinishes(env.provider, env.world, cfg.canRecurse, s.resources);
    }
  }

  lemma {:induction false} LaterChecksWait(cfg: Config, c: Catalog, contracts: seq<FileSystemContract>,
                                           dispatches: seq<Dispatch>, k: nat)
    requires k < |dispatches| == |contracts| && Distinct(contracts)
    requires forall p | p in contracts :: Distinct(c.order(p))
    requires forall i | 0 <= i < k :: dispatches[i].ending.Returned?
    requires Stops(dispatches[k])
    requires forall i | 0 <= i <= k :: Owns(c, contracts[i], dispatches[i])
    ensures var after := Phases(c, Begun(cfg, c, FRESH, contracts, None), None, dispatches).0;
            forall j, id | k < j < |contracts| && id in c.ForContract(contracts[j], cfg.asynchronous) ::
              Waiting(after.run.report, id)
  {
    var begun := Begun(cfg, c, FRESH, contracts, None);
    RegistrationIsClean(c, cfg.asynchronous, EMPTY_REPORT, contracts);
    forall j, id | k < j < |contracts| && id in c.ForContract(contracts[j], cfg.asynchronous)
      ensures Waiting(Phases(c, begun, None, dispatches).0.run.report, id)
    {
      assert contracts[j] in contracts && id in begun.run.report.expected;
      ListedIsChecked(begun.run.report, id);
      StoppedPhasesKeepWaiting(c, begun, contracts, dispatches, k, id);
    }
  }
}
