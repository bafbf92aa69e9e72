/** No resource a session ever tracked is lost: over whole histories, it is in the ledger or was seen missing. */
module Custody {
  import opened Common
  import opened StableSorting
  import opened Ledger
  import opened Runs
  import opened Contexts
  import opened Sessions
  import opened Verdicts

  /** The paths a phase tracks. */
  function TracksIn(actions: seq<Action>): set<Path> {
    set a | a in actions && a.Tracking? :: a.path
  }

  function TracksAll(dispatches: seq<Dispatch>): set<Path> {
    if dispatches == [] then {} else TracksIn(dispatches[0].actions) + TracksAll(dispatches[1..])
  }

  /** The paths a step tracks: those of the phases it dispatches, or the seeded one. */
  function TracksOf<W>(s: Suite, op: Op<W>): set<Path> {
    match op
    case Run(_, _, dispatches, _) => if s.run.started then {} else TracksAll(Dispatched(dispatches))
    case Retry(_) => {}
    case Seed(path, _) => {path}
  }

  /** The calls that the cleanup attempt of a step makes, with their answers. */
  function EventsOf<W>(cfg: Config, c: Catalog, s: Suite, op: Op<W>): seq<Event> {
    match op
    case Run(contracts, selected, dispatches, env) =>
      var (after, phases) := Phases(c, Begun(cfg, c, s, contracts, selected), selected, dispatches);
      if s.run.started || phases.DroppedMidway? then [] else CleanupWalk(cfg, env, after.resources).events
    case Retry(env) => CleanupWalk(cfg, env, s.resources).events
    case Seed(_, _) => []
  }

  function TracksEver<W>(cfg: Config, c: Catalog, s: Suite, ops: seq<Op<W>>): set<Path>
    decreases |ops|
  {
    if ops == [] then {} else TracksOf(s, ops[0]) + TracksEver(cfg, c, Step(cfg, c, s, ops[0]), ops[1..])
  }

  function EventsEver<W>(cfg: Config, c: Catalog, s: Suite, ops: seq<Op<W>>): seq<Event>
    decreases |ops|
  {
    if ops == [] then []
    else EventsOf(cfg, c, s, ops[0]) + EventsEver(cfg, c, Step(cfg, c, s, ops[0]), ops[1..])
  }

  predicate InLedger(s: Suite, path: Path) {
    exists r | r in s.resources :: r.path == path
  }

  // ---------- phases only add to the ledger ----------

  lemma {:induction false} ActKeepsTracked(c: Catalog, s: Suite, a: Action, path: Path)
    requires InLedger(s, path) || (a.Tracking? && a.path == path)
    ensures InLedger(Act(c, s, a), path)
  {
    var e := Act(c, s, a);
    if InLedger(s, path) {
      var r :| r in s.resources && r.path == path;
      assert r in e.resources;
    } else {
      assert e.resources[|s.resources|].path == path && e.resources[|s.resources|] in e.resources;
    }
  }

  lemma {:induction false} ActionsKeepTracked(c: Catalog, s: Suite, actions: seq<Action>, path: Path)
    requires InLedger(s, path) || path in TracksIn(actions)
    ensures InLedger(ActAll(c, s, actions), path)
    decreases |actions|
  {
    if actions != [] {
      var a := actions[0];
      if InLedger(s, path) || (a.Tracking? && a.path == path) {
        ActKeepsTracked(c, s, a, path);
      } else {
        assert path in TracksIn(actions[1..]);
      }
      ActionsKeepTracked(c, Act(c, s, a), actions[1..], path);
    }
  }

  lemma {:induction false} PhasesKeepTracked(c: Catalog, s: Suite, selected: Option<CheckId>,
                                             dispatches: seq<Dispatch>, path: Path)
    requires InLedger(s, path) || path in TracksAll(Dispatched(dispatches))
    ensures InLedger(Phases(c, s, selected, dispatches).0, path)
    decreases |dispatches|
  {
    if dispatches != [] {
      var d, made := dispatches[0], Dispatched(dispatches);
      var after := ActAll(c, s, d.actions);
      assert made[0] == d;
      if InLedger(s, path) || path in TracksIn(d.actions) {
        ActionsKeepTracked(c, s, d.actions, path);
      }
      if d.ending.Returned? {
        assert made[1..] == Dispatched(dispatches[1..]);
        PhasesKeepTracked(c, after, selected, dispatches[1..], path);
      } else {
        assert made[1..] == [];
        assert Phases(c, s, selected, dispatches).0.resources == after.resources;
      }
    }
  }

  // ---------- attempts only release what was seen missing ----------

  lemma {:induction false} AttemptKeepsTracked<W>(cfg: Config, s: Suite, env: Env<W>, path: Path)
    requires InLedger(s, path)
    ensures InLedger(Finish(cfg, s, env).0, path) || SeenMissing(CleanupWalk(cfg, env, s.resources).events, path)
  {
    var k := CleanupWalk(cfg, env, s.resources);
    var r :| r in s.resources && r.path == path;
    assert Finish(cfg, s, env).0.resources == k.ledger;
    if cfg.canDelete {
      var life := if cfg.asynchronous then env.life else Forever;
      var w := Walk(env.provider, env.world, cfg.canRecurse, s.resources, life);
      RestoreIsSortedPermutation(w.ledger);
      SameElements(Restore(Reverse(w.ledger)), w.ledger);
      if r !in w.ledger {
        OnlyMissingResourcesLeave(env.provider, env.world, cfg.canRecurse, s.resources, life, r);
      }
    }
  }

  lemma {:induction false} RunKeepsTracked<W>(cfg: Config, c: Catalog, s: Suite, contracts: seq<FileSystemContract>,
                                              selected: Option<CheckId>, dispatches: seq<Dispatch>, env: Env<W>,
                                              path: Path)
    requires !s.run.started && (InLedger(s, path) || path in TracksAll(Dispatched(dispatches)))
    ensures InLedger(RunSelected(cfg, c, s, contracts, selected, dispatches, env).0, path)
            || SeenMissing(EventsOf(cfg, c, s, Run(contracts, selected, dispatches, env)), path)
  {
    var begun := Begun(cfg, c, s, contracts, selected);
    var (after, phases) := Phases(c, begun, selected, dispatches);
    PhasesKeepTracked(c, begun, selected, dispatches, path);
    if !phases.DroppedMidway? {
      AttemptKeepsTracked(cfg, after, env, path);
      var (finished, result) := Finish(cfg, after, env);
      assert Concluded(finished, result).resources == finished.resources;
    }
  }

  lemma {:induction false} StepKeepsTracked<W>(cfg: Config, c: Catalog, s: Suite, op: Op<W>, path: Path)
    requires InLedger(s, path) || path in TracksOf(s, op)
    ensures InLedger(Step(cfg, c, s, op), path) || SeenMissing(EventsOf(cfg, c, s, op), path)
  {
    match op
    case Run(contracts, selected, dispatches, env) =>
      if !s.run.started {
        RunKeepsTracked(cfg, c, s, contracts, selected, dispatches, env, path);
      }
    case Retry(env) => AttemptKeepsTracked(cfg, s, env, path);
    case Seed(p, owner) => ActKeepsTracked(c, s, Tracking(p, owner), path);
  }

  /**
   Over every history, whatever the provider answers and wherever runs and attempts
   are dropped: a path that was in the ledger, or that a phase or a seed tracked at
   any time, is in the ledger at the end, or some attempt of the history was told that
   it is missing.
   */
  lemma {:induction false} NothingTrackedIsLost<W>(cfg: Config, c: Catalog, s: Suite, ops: seq<Op<W>>, path: Path)
    requires InLedger(s, path) || path in TracksEver(cfg, c, s, ops)
    ensures InLedger(Replay(cfg, c, s, ops), path) || SeenMissing(EventsEver(cfg, c, s, ops), path)
    decreases |ops|
  {
    if ops != [] {
      var e := Step(cfg, c, s, ops[0]);
      var first, rest := EventsOf(cfg, c, s, ops[0]), EventsEver(cfg, c, e, ops[1..]);
      if InLedger(s, path) || path in TracksOf(s, ops[0]) {
        StepKeepsTracked(cfg, c, s, ops[0], path);
      }
      if InLedger(e, path) || path in TracksEver(cfg, c, e, ops[1..]) {
        NothingTrackedIsLost(cfg, c, e, ops[1..], path);
      }
      SeenMissingGrows(first, rest, path);
    }
  }

  /** A new path is tracked at the end of the ledger, under its owner, with the next index. */
  lemma {:induction false} TrackedUnderItsOwner(c: Catalog, s: Suite, path: Path, owner: string)
    requires s.resourceIndex <= U64_MAX
    ensures var e := Act(c, s, Tracking(path, owner));
            if InLedger(s, path) then e == s
            else
              && e.resources == s.resources + [Resource(path, owner, e.resourceIndex)]
              && (e.resourceIndex == s.resourceIndex + 1 || s.resourceIndex == e.resourceIndex == U64_MAX)
              && e.run == s.run && e.teardowns == s.teardowns && e.tornDown == s.tornDown
  {
  }
}
