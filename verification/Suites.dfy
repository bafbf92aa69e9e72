/** The blocking and the awaiting suite, proved against the session state machine. */
module Suites {
  import opened Common
  import opened StableSorting
  import opened Ledger
  import opened Reports
  import opened Runs
  import opened Contexts
  import Names
  import opened Sessions

  /** The fixture: it answers teardown calls as it likes, and every call is counted. */
  class Fixture {
    var teardowns: seq<TeardownReply>

    constructor ()
      ensures teardowns == []
    {
      teardowns := [];
    }

    method Teardown(answer: TeardownReply) returns (reply: TeardownReply)
      modifies this
      ensures reply == answer && teardowns == old(teardowns) + [answer]
    {
      teardowns := teardowns + [answer];
      reply := answer;
    }
  }

  /** Both suites have these fields; `cfg.asynchronous` tells which of the two drivers a suite is. */
  class ContractSuite {
    const catalog: Catalog
    const cfg: Config
    const context: ContractContext
    const fixture: Fixture
    var teardownCompleted: bool

    ghost predicate Valid()
      reads this, context, context.report
    {
      context.Valid() && context.canDelete == cfg.canDelete && context.canRecurse == cfg.canRecurse
    }

    function View(): Suite
      reads this, context, context.report, fixture
    {
      Suite(context.Run(), context.resources, context.resourceIndex, teardownCompleted, fixture.teardowns)
    }

    constructor (catalog: Catalog, cfg: Config)
      ensures Valid() && View() == FRESH && this.catalog == catalog && this.cfg == cfg
      ensures fresh(context) && fresh(context.report) && fresh(fixture)
    {
      this.catalog, this.cfg := catalog, cfg;
      context := new ContractContext(cfg.canDelete, cfg.canRecurse);
      fixture := new Fixture();
      teardownCompleted := false;
    }

    /** Registers the whole selection before any phase runs. */
    method RegisterSelection(contracts: seq<FileSystemContract>, selected: Option<CheckId>)
      requires Valid()
      modifies context.report, context`nameCounter, context`begins, context`currentContract
      ensures Valid()
      ensures context.report.Data() ==
              Register(catalog, cfg.asynchronous, old(context.report.Data()), contracts, selected)
      ensures context.currentContract == (if selected.Some? then selected.value.name else old(context.currentContract))
      ensures context.begins == old(context.begins) + if selected.Some? then 1 else 0
    {
      if selected.Some? {
        context.report.Register(selected.value, catalog.specification(selected.value).capability);
        context.Begin(selected.value.name);
      } else {
        var rest := contracts;
        while rest != []
          invariant Valid()
          invariant context.currentContract == old(context.currentContract) && context.begins == old(context.begins)
          invariant Prepare(catalog, cfg.asynchronous, context.report.Data(), rest)
                    == Prepare(catalog, cfg.asynchronous, old(context.report.Data()), contracts)
          decreases |rest|
        {
          context.PreparePhase(catalog, rest[0], cfg.asynchronous);
          rest := rest[1..];
        }
      }
    }

    /** What a dispatched phase does to the shared state. */
    method Perform(actions: seq<Action>)
      requires Valid()
      modifies context, context.report
      ensures Valid() && View() == ActAll(catalog, old(View()), actions)
    {
      var rest := actions;
      while rest != []
        invariant Valid() && ActAll(catalog, View(), rest) == ActAll(catalog, old(View()), actions)
        decreases |rest|
      {
        match rest[0] {
          case Completing(id, capability, outcome) => context.RecordCheck(catalog, id, capability, outcome);
          case Tracking(path, owner) => context.RecordResource(path, owner);
          case NotingCleanup(failure) =>
            context.cleanup := context.cleanup.(failures := context.cleanup.failures + [failure]);
          case NotingFailure(failure) => context.failures := context.failures + [failure];
        }
        rest := rest[1..];
      }
    }

    /** Dispatches the phases in order, keeping the first failure or panic and stopping there. */
    method DispatchAll(selected: Option<CheckId>, dispatches: seq<Dispatch>) returns (result: PhasesResult)
      requires Valid()
      modifies context, context.report
      ensures Valid() && (View(), result) == Phases(catalog, old(View()), selected, dispatches)
    {
      var rest := dispatches;
      while rest != []
        invariant Valid()
        invariant Phases(catalog, View(), selected, rest) == Phases(catalog, old(View()), selected, dispatches)
        decreases |rest|
      {
        Perform(rest[0].actions);
        match rest[0].ending {
          case Returned =>
          case FailedWith(failure) =>
            context.Fail(catalog, failure);
            return Stopped;
          case PanickedWith(payload) =>
            context.Fail(catalog, ContractFailure(selected, Panicked("contract execution panicked", payload)));
            return Stopped;
          case DroppedInside =>
            return DroppedMidway;
        }
        rest := rest[1..];
      }
      return AllReturned;
    }

    /** Tears the fixture down unless that already succeeded, and closes the attempt. */
    method TearDown(answer: TeardownReply, failureStart: nat) returns (result: FinishResult)
      requires Valid() && !context.cleanup.completed && failureStart <= |context.cleanup.failures|
      modifies this`teardownCompleted, context`cleanup, fixture
      ensures Valid() && (View(), result) == Closed(old(View()), failureStart, answer)
    {
      assert context.cleanup.failures + [] == context.cleanup.failures;
      if !teardownCompleted {
        var reply := fixture.Teardown(answer);
        match reply {
          case TornDown => teardownCompleted := true;
          case TeardownDropped => return Interrupted;
          case _ =>
            context.cleanup := context.cleanup.(failures := context.cleanup.failures + TeardownFault(reply));
        }
      }
      if |context.cleanup.failures| == failureStart {
        context.cleanup := context.cleanup.(completed := true);
        return Succeeded;
      }
      return Unsuccessful;
    }

    /** Counts the attempt and runs the blocking cleanup. */
    method Attempt<W>(fs: FileSystem<W>)
      requires Valid() && !cfg.asynchronous
      modifies context`cleanup, context`resources, fs
      ensures Valid()
      ensures var k := Sessions.Attempt(cfg, fs.provider, old(fs.world), Forever, old(context.resources));
              View() == Attempted(old(View()), k) && k.finished
    {
      ghost var before, world := View(), fs.world;
      context.cleanup := context.cleanup.(attempts := context.cleanup.attempts + 1, completed := false);
      ghost var counted, log := context.cleanup, fs.log;
      context.Cleanup(fs);
      if cfg.canDelete {
        BlockingAttemptEnds(cfg, fs.provider, world, before.resources, fs.world, log, fs.log, counted, context.cleanup);
      } else {
        NoAttempt(cfg, fs.provider, world, before.resources, counted);
      }
      ghost var k := Sessions.Attempt(cfg, fs.provider, world, Forever, before.resources);
      ghost var after := View();
      assert after.resources == k.ledger;
      assert after.run.cleanup == Attempted(before, k).run.cleanup;
    }

    /** Counts the attempt and runs the awaiting cleanup. */
    method AttemptAsync<W>(fs: FileSystem<W>, life: Lifetime) returns (finished: bool)
      requires Valid() && cfg.asynchronous
      modifies context`cleanup, context`resources, fs
      ensures Valid()
      ensures var k := Sessions.Attempt(cfg, fs.provider, old(fs.world), life, old(context.resources));
              View() == Attempted(old(View()), k) && finished == k.finished
    {
      ghost var failures := context.cleanup.failures;
      context.cleanup := context.cleanup.(attempts := context.cleanup.attempts + 1, completed := false);
      var left;
      finished, left := context.CleanupAsync(fs, life);
      assert failures + [] == failures;
    }

    /** The blocking cleanup attempt with teardown. */
    method FinishCapture<W>(fs: FileSystem<W>, answer: TeardownReply) returns (result: FinishResult)
      requires Valid() && !cfg.asynchronous && !answer.TeardownDropped?
      modifies this`teardownCompleted, context`cleanup, context`resources, fixture, fs
      ensures Valid()
      ensures (View(), result) == Finish(cfg, old(View()), Env(fs.provider, old(fs.world), Forever, answer))
      ensures result != Interrupted
    {
      var failureStart := |context.cleanup.failures|;
      Attempt(fs);
      assert View().run.cleanup == context.cleanup;
      result := TearDown(answer, failureStart);
    }

    /** The awaiting cleanup attempt with teardown; dropping it leaves everything where it stands. */
    method FinishCaptureAsync<W>(fs: FileSystem<W>, life: Lifetime, answer: TeardownReply)
      returns (result: FinishResult)
      requires Valid() && cfg.asynchronous
      modifies this`teardownCompleted, context`cleanup, context`resources, fixture, fs
      ensures Valid()
      ensures (View(), result) == Finish(cfg, old(View()), Env(fs.provider, old(fs.world), life, answer))
    {
      var failureStart := |context.cleanup.failures|;
      var finished := AttemptAsync(fs, life);
      if !finished {
        return Interrupted;
      }
      assert View().run.cleanup == context.cleanup;
      result := TearDown(answer, failureStart);
    }

    /** One run per session: a second one only leaves a failure behind. */
    method Refuse()
      requires Valid()
      modifies context`failures
      ensures Valid() && View() == RefusedRun(old(View()))
    {
      context.failures := context.failures + [ContractFailure(None, Message("session already started"))];
    }

    method Start(contracts: seq<FileSystemContract>, selected: Option<CheckId>)
      requires Valid()
      modifies context, context.report
      ensures Valid() && View() == Begun(cfg, catalog, old(View()), contracts, selected)
    {
      context.started := true;
      RegisterSelection(contracts, selected);
    }

    method Conclude(result: FinishResult)
      requires Valid()
      modifies context`failures, context`completed
      ensures Valid() && View() == Concluded(old(View()), result)
    {
      if result.Unsuccessful? {
        context.failures := context.failures + [ContractFailure(None, Message("cleanup failed"))];
      }
      context.completed := true;
    }

    /** The blocking session. */
    method RunSelected<W>(contracts: seq<FileSystemContract>, selected: Option<CheckId>, dispatches: seq<Dispatch>,
                          fs: FileSystem<W>, answer: TeardownReply) returns (result: RunResult)
      requires Valid() && !cfg.asynchronous && !answer.TeardownDropped?
      requires forall d | d in dispatches :: !d.ending.DroppedInside?
      modifies this, context, context.report, fixture, fs
      ensures Valid() && result != Dropped
      ensures (View(), result) == Sessions.RunSelected(cfg, catalog, old(View()), contracts, selected, dispatches,
                                                       Env(fs.provider, old(fs.world), Forever, answer))
    {
      if context.started {
        Refuse();
        return Refused;
      }
      Start(contracts, selected);
      NothingDropped(catalog, View(), selected, dispatches);
      var phases := DispatchAll(selected, dispatches);
      var finish := FinishCapture(fs, answer);
      Conclude(finish);
      return Completed;
    }

    /** The awaiting session; it may be dropped inside a phase, inside cleanup or inside teardown. */
    method RunSelectedAsync<W>(contracts: seq<FileSystemContract>, selected: Option<CheckId>, dispatches: seq<Dispatch>,
                               fs: FileSystem<W>, life: Lifetime, answer: TeardownReply) returns (result: RunResult)
      requires Valid() && cfg.asynchronous
      modifies this, context, context.report, fixture, fs
      ensures Valid()
      ensures (View(), result) == Sessions.RunSelected(cfg, catalog, old(View()), contracts, selected, dispatches,
                                                       Env(fs.provider, old(fs.world), life, answer))
    {
      if context.started {
        Refuse();
        return Refused;
      }
      Start(contracts, selected);
      var phases := DispatchAll(selected, dispatches);
      if phases.DroppedMidway? {
        return Dropped;
      }
      var finish := FinishCaptureAsync(fs, life, answer);
      if finish.Interrupted? {
        return Dropped;
      }
      Conclude(finish);
      return Completed;
    }

    /**
     Asks the fixture for a file under a generated name, before, between and after
     runs. A path that was published is tracked; an error panics and, like a
     refusal, tracks nothing.
     */
    method Seed(relative: string, answer: string -> SeedReply<Path>) returns (reply: SeedReply<Path>)
      requires Valid()
      modifies context`resources, context`resourceIndex
      ensures Valid() && reply == answer(old(context.RelativeName(relative)))
      ensures reply == answer(Names.RelativeName(context.currentContract, Names.CounterAfter(context.begins), relative))
      ensures View() == if reply.Seeded? then Act(catalog, old(View()), Tracking(reply.path, context.currentContract))
                        else old(View())
    {
      reply := answer(context.RelativeName(relative));
      if reply.Seeded? {
        context.RecordCreated(reply.path);
      }
    }
  }

  lemma {:induction false} BlockingAttemptEnds<W>(cfg: Config, p: Provider<W>, w: W, rs: seq<Resource>, world: W,
                                                  before: seq<Event>, after: seq<Event>,
                                                  counted: CleanupReport, report: CleanupReport)
    requires !cfg.asynchronous && cfg.canDelete
    requires Walks(Walk(p, w, cfg.canRecurse, rs, Forever), world, before, after, counted, report)
    ensures var k := Sessions.Attempt(cfg, p, w, Forever, rs);
            && k.finished && k.ledger == Restore(Reverse(Walk(p, w, cfg.canRecurse, rs, Forever).ledger))
            && report == counted.(failures := counted.failures + k.failures)
  {
    WalkForeverFinishes(p, w, cfg.canRecurse, rs);
  }

  lemma {:induction false} NoAttempt<W>(cfg: Config, p: Provider<W>, w: W, rs: seq<Resource>, counted: CleanupReport)
    requires !cfg.canDelete
    ensures var k := Sessions.Attempt(cfg, p, w, Forever, rs);
            k.finished && k.ledger == rs && counted.failures + k.failures == counted.failures
  {
  }

  lemma {:induction false} NothingDropped(c: Catalog, s: Suite, selected: Option<CheckId>, dispatches: seq<Dispatch>)
    requires forall d | d in dispatches :: !d.ending.DroppedInside?
    ensures !Phases(c, s, selected, dispatches).1.DroppedMidway?
    decreases |dispatches|
  {
    if dispatches != [] && dispatches[0].ending.Returned? {
      NothingDropped(c, ActAll(c, s, dispatches[0].actions), selected, dispatches[1..]);
    }
  }
}
