/**
 The state shared by one suite run: the cleanup ledger, the retained run, and
 the two cleanup loops over the file-system facade.
 */
module Contexts {
  import opened Common
  import opened StableSorting
  import opened Ledger
  import opened Audits
  import opened Reports
  import opened Runs
  import Names

  /** The facade: every call goes to an adversarial provider and is logged. */
  class FileSystem<W> {
    const provider: Provider<W>
    var world: W
    var log: seq<Event>

    constructor (provider: Provider<W>, world: W)
      ensures this.provider == provider && this.world == world && log == []
    {
      this.provider, this.world, log := provider, world, [];
    }

    /** A blocking call; a panic is caught and becomes a reply. */
    method Perform(call: Call) returns (reply: Reply)
      modifies this
      ensures (world, reply) == provider.step(old(world), call)
      ensures log == old(log) + [Answered(call, reply)]
    {
      var (after, answer) := provider.step(world, call);
      world, log, reply := after, log + [Answered(call, answer)], answer;
    }

    /** An awaited call; there is no reply when the caller is dropped while it is pending. */
    method Await(call: Call, life: Lifetime) returns (reply: Option<Reply>)
      modifies this
      ensures life.Spent() ==> reply == None && world == provider.abandon(old(world), call)
                               && log == old(log) + [Abandoned(call)]
      ensures !life.Spent() ==> reply.Some? && (world, reply.value) == provider.step(old(world), call)
                                && log == old(log) + [Answered(call, reply.value)]
    {
      if life.Spent() {
        world, log, reply := provider.abandon(world, call), log + [Abandoned(call)], None;
      } else {
        var answer := Perform(call);
        reply := Some(answer);
      }
    }
  }

  /** The part of a walk made so far, to which the walk of the rest is joined. */
  lemma {:induction false} JoinAbsorb<W>(sofar: Walked<W>, d: Driven<W>, r: Resource, rest: Walked<W>)
    requires d.phase.Over?
    ensures Join(sofar, Absorb(d, r, rest)) == Join(Visited(sofar, d, r), rest)
  {
    assert sofar.events + (d.events + rest.events) == (sofar.events + d.events) + rest.events;
    var f := Failures(d.phase.verdict);
    assert sofar.failures + (f + rest.failures) == (sofar.failures + f) + rest.failures;
    var kept := Kept(r, d.phase.verdict);
    assert (rest.ledger + kept) + sofar.ledger == rest.ledger + (kept + sofar.ledger);
  }

  function Visited<W>(sofar: Walked<W>, d: Driven<W>, r: Resource): Walked<W>
    requires d.phase.Over?
  {
    Walked(d.world, d.life, sofar.events + d.events, sofar.failures + Failures(d.phase.verdict),
           Kept(r, d.phase.verdict) + sofar.ledger, true)
  }

  /** The walk of `front + [r]` after `sofar` visits `r` and, unless it is dropped there, goes on with `front`. */
  lemma {:induction false} WalkStep<W>(p: Provider<W>, sofar: Walked<W>, recursive: bool, front: seq<Resource>,
                                       r: Resource, life: Lifetime, whole: Walked<W>)
    requires whole == Join(sofar, Walk(p, sofar.world, recursive, front + [r], life))
    ensures var d := Drive(p, sofar.world, recursive, r, Inspecting, life);
            whole == if d.phase.Over? then Join(Visited(sofar, d, r), Walk(p, d.world, recursive, front, d.life))
                     else Join(sofar, Walked(d.world, d.life, d.events, [], front + [r], false))
  {
    WalkLast(p, sofar.world, recursive, front, r, life);
    var d := Drive(p, sofar.world, recursive, r, Inspecting, life);
    if d.phase.Over? {
      JoinAbsorb(sofar, d, r, Walk(p, d.world, recursive, front, d.life));
    }
  }

  class ContractContext {
    const canDelete: bool
    const canRecurse: bool
    const report: ContractReport
    var nameCounter: nat
    ghost var begins: nat  // how often a contract was begun
    var currentContract: string
    var resources: seq<Resource>
    var resourceIndex: nat
    var cleanup: CleanupReport
    var failures: seq<ContractFailure>
    var started: bool
    var completed: bool

    ghost predicate Valid()
      reads this, report
    {
      && report.Valid() && Ordered(resources, resourceIndex) && resourceIndex <= U64_MAX
      && nameCounter == Names.CounterAfter(begins)
    }

    function Run(): ContractRun
      reads this, report
    {
      ContractRun(report.Data(), cleanup, failures, started, completed)
    }

    constructor (canDelete: bool, canRecurse: bool)
      ensures Valid() && fresh(report) && this.canDelete == canDelete && this.canRecurse == canRecurse
      ensures Run() == EMPTY_RUN && resources == [] && resourceIndex == 0
    {
      this.canDelete, this.canRecurse := canDelete, canRecurse;
      report := new ContractReport();
      nameCounter, begins, currentContract := 0, 0, "initialization";
      resources, resourceIndex := [], 0;
      cleanup := CleanupReport(0, false, []);
      failures, started, completed := [], false, false;
    }

    /** Starts a named assertion; names made from here on carry a new counter until it saturates. */
    method Begin(contract: string)
      requires Valid()
      modifies `nameCounter, `begins, `currentContract
      ensures Valid() && currentContract == contract && begins == old(begins) + 1
    {
      currentContract := contract;
      nameCounter := SaturatingSucc(nameCounter);
      begins := begins + 1;
    }

    /** The suite-unique name of a resource, determined by the number of begun assertions and the suffix. */
    function RelativeName(relative: string): string
      reads this
    {
      Names.RelativeName(currentContract, nameCounter, relative)
    }

    method RecordCheck(catalog: Catalog, id: CheckId, capability: Option<Capability>, outcome: Outcome)
      requires Valid()
      modifies report
      ensures Valid() && report.Data() == RecordFor(catalog, old(report.Data()), id, capability, outcome)
    {
      report.Record(id, capability, outcome, catalog.specification(id).optional);
    }

    /** Registers every check of a phase before it runs. */
    method PreparePhase(catalog: Catalog, contract: FileSystemContract, asynchronous: bool)
      requires Valid()
      modifies report
      ensures Valid()
      ensures report.Data() == PrepareIds(catalog, old(report.Data()), catalog.ForContract(contract, asynchronous))
    {
      var ids := catalog.ForContract(contract, asynchronous);
      ghost var whole := PrepareIds(catalog, report.Data(), ids);
      while ids != []
        invariant report.Valid() && PrepareIds(catalog, report.Data(), ids) == whole
        decreases |ids|
      {
        report.Register(ids[0], catalog.specification(ids[0]).capability);
        ids := ids[1..];
      }
    }

    /** Keeps a failure, and completes the check it is attributed to as failed. */
    method Fail(catalog: Catalog, failure: ContractFailure)
      requires Valid()
      modifies report, `failures
      ensures Valid() && failures == old(failures) + [failure]
      ensures failure.check == None ==> report.Data() == old(report.Data())
      ensures report.Data() == match failure.check
                case Some(id) => RecordFor(catalog, old(report.Data()), id, catalog.specification(id).capability,
                                           Outcome.Failed(MessageOf(failure)))
                case None => old(report.Data())
    {
      if failure.check.Some? {
        var id := failure.check.value;
        report.Record(id, catalog.specification(id).capability, Outcome.Failed(MessageOf(failure)),
                      catalog.specification(id).optional);
      }
      failures := failures + [failure];
    }

    /** Tracks a path once: a path already in the ledger keeps its first owner and index. */
    method RecordResource(path: Path, owner: string)
      requires Valid()
      modifies `resources, `resourceIndex
      ensures Valid()
      ensures (resources, resourceIndex) == Tracked(old(resources), old(resourceIndex), path, owner)
      ensures (exists r | r in old(resources) :: r.path == path) ==>
                resources == old(resources) && resourceIndex == old(resourceIndex)
      ensures (forall r | r in old(resources) :: r.path != path) ==>
                && resources == old(resources) + [Resource(path, owner, resourceIndex)]
                && (resourceIndex == old(resourceIndex) + 1 || old(resourceIndex) == resourceIndex == U64_MAX)
    {
      if exists r | r in resources :: r.path == path {
        return;
      }
      TrackingKeepsOrdered(resources, resourceIndex, path, owner);
      resourceIndex := SaturatingSucc(resourceIndex);
      resources := resources + [Resource(path, owner, resourceIndex)];
    }

    method RecordCreated(path: Path)
      requires Valid()
      modifies `resources, `resourceIndex
      ensures Valid()
      ensures (resources, resourceIndex) == Tracked(old(resources), old(resourceIndex), path, currentContract)
    {
      RecordResource(path, currentContract);
    }

    /** Appends a fault to the cleanup failures; nothing else of the cleanup report changes. */
    method RecordCleanupFailure(fault: CleanupFailure)
      modifies `cleanup
      ensures cleanup == old(cleanup).(failures := old(cleanup).failures + [ContractFailure(None, CleanupFault(fault))])
    {
      cleanup := cleanup.(failures := cleanup.failures + [ContractFailure(None, CleanupFault(fault))]);
    }

    /** The blocking visit of `r` from its last step on; the caller keeps `r` if the answer is true. */
    method Verify<W>(fs: FileSystem<W>, r: Resource) returns (keep: bool)
      modifies fs, `cleanup
      ensures Took(Drive(fs.provider, old(fs.world), canRecurse, r, Verifying, Forever),
                   fs.world, old(fs.log), fs.log, old(cleanup), cleanup, true)
      ensures keep == Drive(fs.provider, old(fs.world), canRecurse, r, Verifying, Forever).phase.verdict.Retained?
    {
      var verified := fs.Perform(Stat(r.path));
      match verified {
        case NotFound => return false;
        case Ok(_) => RecordCleanupFailure(CleanupFailure(r.owner, "delete", r.path, StillExists));
        case Error(code) => RecordCleanupFailure(CleanupFailure(r.owner, "delete", r.path, Unconfirmed(code)));
        case Panic(payload) => RecordCleanupFailure(CleanupFailure(r.owner, "delete", r.path, ProviderPanic(payload)));
      }
      return true;
    }

    method Delete<W>(fs: FileSystem<W>, r: Resource, directory: bool) returns (keep: bool)
      modifies fs, `cleanup
      ensures Took(Drive(fs.provider, old(fs.world), canRecurse, r, Removing(directory), Forever),
                   fs.world, old(fs.log), fs.log, old(cleanup), cleanup, true)
      ensures var d := Drive(fs.provider, old(fs.world), canRecurse, r, Removing(directory), Forever);
              keep == d.phase.verdict.Retained?
    {
      var deleted := fs.Perform(if directory then DeleteDirectory(r.path, canRecurse) else DeleteFile(r.path));
      match deleted {
        case NotFound => return false;
        case Error(code) => RecordCleanupFailure(CleanupFailure(r.owner, "delete", r.path, FacadeError(code)));
        case Panic(payload) => RecordCleanupFailure(CleanupFailure(r.owner, "delete", r.path, ProviderPanic(payload)));
        case Ok(_) =>
          keep := Verify(fs, r);
          TookThen(fs.provider, old(fs.world), canRecurse, r, Removing(directory), Forever,
                   fs.world, old(fs.log), fs.log, old(cleanup), cleanup, true);
          return keep;
      }
      return true;
    }

    method Inspect<W>(fs: FileSystem<W>, r: Resource) returns (keep: bool)
      modifies fs, `cleanup
      ensures Took(Drive(fs.provider, old(fs.world), canRecurse, r, Inspecting, Forever),
                   fs.world, old(fs.log), fs.log, old(cleanup), cleanup, true)
      ensures keep == Drive(fs.provider, old(fs.world), canRecurse, r, Inspecting, Forever).phase.verdict.Retained?
    {
      var inspected := fs.Perform(Stat(r.path));
      match inspected {
        case NotFound => return false;
        case Error(code) => RecordCleanupFailure(CleanupFailure(r.owner, "stat", r.path, FacadeError(code)));
        case Panic(payload) => RecordCleanupFailure(CleanupFailure(r.owner, "stat", r.path, ProviderPanic(payload)));
        case Ok(directory) =>
          keep := Delete(fs, r, directory);
          TookThen(fs.provider, old(fs.world), canRecurse, r, Inspecting, Forever,
                   fs.world, old(fs.log), fs.log, old(cleanup), cleanup, true);
          return keep;
      }
      return true;
    }

    /** Stats, deletes and verifies one resource. */
    method Release<W>(fs: FileSystem<W>, r: Resource) returns (keep: bool)
      modifies fs, `cleanup
      ensures Took(Drive(fs.provider, old(fs.world), canRecurse, r, Inspecting, Forever),
                   fs.world, old(fs.log), fs.log, old(cleanup), cleanup, true)
      ensures keep == Drive(fs.provider, old(fs.world), canRecurse, r, Inspecting, Forever).phase.verdict.Retained?
      ensures VisitConducted(canRecurse, r, old(fs.log), fs.log, old(cleanup), cleanup, true, keep)
    {
      ghost var world, log, report := fs.world, fs.log, cleanup;
      keep := Inspect(fs, r);
      TookIsVisit(fs.provider, world, canRecurse, r, Forever, fs.world, log, fs.log, report, cleanup, true);
    }

    /** The loop of the blocking attempt: pop, release, retain, then sort what was retained. */
    method Sweep<W>(fs: FileSystem<W>)
      modifies fs, `resources, `cleanup
      ensures var k := Walk(fs.provider, old(fs.world), canRecurse, old(resources), Forever);
              Walks(k, fs.world, old(fs.log), fs.log, old(cleanup), cleanup) && resources == Restore(Reverse(k.ledger))
    {
      var pending, retained := resources, [];
      ghost var whole := Walk(fs.provider, fs.world, canRecurse, pending, Forever);
      ghost var sofar := Walked(fs.world, Forever, [], [], [], true);
      JoinNothing(sofar, whole);
      while pending != []
        invariant sofar.ledger == Reverse(retained)
        invariant Walks(sofar, fs.world, old(fs.log), fs.log, old(cleanup), cleanup)
        invariant whole == Join(sofar, Walk(fs.provider, fs.world, canRecurse, pending, Forever))
        decreases |pending|
      {
        var r := pending[|pending| - 1];
        LastSplits(pending);
        pending := pending[..|pending| - 1];
        ghost var d := Drive(fs.provider, fs.world, canRecurse, r, Inspecting, Forever);
        DriveForeverEnds(fs.provider, fs.world, canRecurse, r, Inspecting);
        WalkStep(fs.provider, sofar, canRecurse, pending, r, Forever, whole);
        ghost var log, report := fs.log, cleanup;
        var keep := Release(fs, r);
        WalksOn(sofar, d, r, fs.world, old(fs.log), log, fs.log, old(cleanup), report, cleanup);
        RetainOne(retained, r, d.phase.verdict);
        sofar := Visited(sofar, d, r);
        if keep {
          retained := retained + [r];
        }
      }
      WalkEnds(fs.provider, sofar, canRecurse, Forever, whole);
      ReverseTwice(retained);
      resources := Restore(retained);
    }

    /** The blocking attempt. */
    method Cleanup<W>(fs: FileSystem<W>)
      requires Valid()
      modifies fs, `resources, `cleanup
      ensures Valid()
      ensures !canDelete ==> unchanged(fs) && unchanged(this)
      ensures canDelete ==>
                var k := Walk(fs.provider, old(fs.world), canRecurse, old(resources), Forever);
                && Walks(k, fs.world, old(fs.log), fs.log, old(cleanup), cleanup)
                && resources == Restore(Reverse(k.ledger))
                && (Strict(old(resources)) ==> resources == k.ledger)
      ensures canDelete ==>
                ConductedToEnd(fs.provider, old(fs.world), canRecurse, old(resources), old(fs.log), fs.log,
                               old(cleanup), cleanup, fs.world, resources)
    {
      if canDelete {
        ghost var world, before, log, report := fs.world, resources, fs.log, cleanup;
        Sweep(fs);
        WalkForeverFinishes(fs.provider, world, canRecurse, before);
        WalkIsConducted(fs.provider, world, canRecurse, before, Forever, log, fs.log, report, cleanup, fs.world);
        ghost var kept := Walk(fs.provider, world, canRecurse, before, Forever).ledger;
        RestoreIsSortedPermutation(kept);
        AttemptKeepsOrdered(fs.provider, world, canRecurse, before, Forever, resourceIndex);
        RestoreKeepsOrdered(Walk(fs.provider, world, canRecurse, before, Forever).ledger, resourceIndex);
        if Strict(before) {
          StrictLedgersAgree(fs.provider, world, canRecurse, before);
        }
        assert IsOrderOf(resources, kept, before);
      }
    }

    /** `Vec::remove`: the later entries move down. */
    method Remove(index: nat)
      requires index < |resources|
      modifies `resources
      ensures resources == old(resources)[..index] + old(resources)[index + 1..]
    {
      resources := resources[..index] + resources[index + 1..];
    }

    /** The awaiting visit of entry `index` from its last step on; the entry is removed in place once seen missing. */
    method VerifyAt<W>(fs: FileSystem<W>, index: nat, life: Lifetime) returns (finished: bool, left: Lifetime)
      requires index < |resources|
      modifies fs, `cleanup, `resources
      ensures var d := Drive(fs.provider, old(fs.world), canRecurse, old(resources)[index], Verifying, life);
              && Took(d, fs.world, old(fs.log), fs.log, old(cleanup), cleanup, finished) && left == d.life
              && resources == LedgerAfter(old(resources), index, d.phase)
    {
      var r := resources[index];
      var verified := fs.Await(Stat(r.path), life);
      if verified.None? {
        return false, life;
      }
      match verified.value {
        case NotFound => Remove(index);
        case Ok(_) => RecordCleanupFailure(CleanupFailure(r.owner, "delete", r.path, StillExists));
        case Error(code) => RecordCleanupFailure(CleanupFailure(r.owner, "delete", r.path, Unconfirmed(code)));
        case Panic(payload) => RecordCleanupFailure(CleanupFailure(r.owner, "delete", r.path, ProviderPanic(payload)));
      }
      return true, life.Tick();
    }

    method DeleteAt<W>(fs: FileSystem<W>, index: nat, directory: bool, life: Lifetime)
      returns (finished: bool, left: Lifetime)
      requires index < |resources|
      modifies fs, `cleanup, `resources
      ensures var d := Drive(fs.provider, old(fs.world), canRecurse, old(resources)[index], Removing(directory), life);
              && Took(d, fs.world, old(fs.log), fs.log, old(cleanup), cleanup, finished) && left == d.life
              && resources == LedgerAfter(old(resources), index, d.phase)
    {
      var r := resources[index];
      var call := if directory then DeleteDirectory(r.path, canRecurse) else DeleteFile(r.path);
      var deleted := fs.Await(call, life);
      if deleted.None? {
        return false, life;
      }
      match deleted.value {
        case NotFound => Remove(index);
        case Error(code) => RecordCleanupFailure(CleanupFailure(r.owner, "delete", r.path, FacadeError(code)));
        case Panic(payload) => RecordCleanupFailure(CleanupFailure(r.owner, "delete", r.path, ProviderPanic(payload)));
        case Ok(_) =>
          finished, left := VerifyAt(fs, index, life.Tick());
          TookThen(fs.provider, old(fs.world), canRecurse, r, Removing(directory), life,
                   fs.world, old(fs.log), fs.log, old(cleanup), cleanup, finished);
          return finished, left;
      }
      return true, life.Tick();
    }

    method InspectAt<W>(fs: FileSystem<W>, index: nat, life: Lifetime) returns (finished: bool, left: Lifetime)
      requires index < |resources|
      modifies fs, `cleanup, `resources
      ensures var d := Drive(fs.provider, old(fs.world), canRecurse, old(resources)[index], Inspecting, life);
              && Took(d, fs.world, old(fs.log), fs.log, old(cleanup), cleanup, finished) && left == d.life
              && resources == LedgerAfter(old(resources), index, d.phase)
    {
      var r := resources[index];
      var inspected := fs.Await(Stat(r.path), life);
      if inspected.None? {
        return false, life;
      }
      match inspected.value {
        case NotFound => Remove(index);
        case Error(code) => RecordCleanupFailure(CleanupFailure(r.owner, "stat", r.path, FacadeError(code)));
        case Panic(payload) => RecordCleanupFailure(CleanupFailure(r.owner, "stat", r.path, ProviderPanic(payload)));
        case Ok(directory) =>
          finished, left := DeleteAt(fs, index, directory, life.Tick());
          TookThen(fs.provider, old(fs.world), canRecurse, r, Inspecting, life,
                   fs.world, old(fs.log), fs.log, old(cleanup), cleanup, finished);
          return finished, left;
      }
      return true, life.Tick();
    }

    /** Stats, deletes and verifies entry `index`, and removes it in place once seen missing. */
    method ReleaseAt<W>(fs: FileSystem<W>, index: nat, life: Lifetime) returns (finished: bool, left: Lifetime)
      requires index < |resources|
      modifies fs, `cleanup, `resources
      ensures var d := Drive(fs.provider, old(fs.world), canRecurse, old(resources)[index], Inspecting, life);
              && Took(d, fs.world, old(fs.log), fs.log, old(cleanup), cleanup, finished) && left == d.life
              && resources == LedgerAfter(old(resources), index, d.phase)
      ensures exists keep ::
                && VisitConducted(canRecurse, old(resources)[index], old(fs.log), fs.log, old(cleanup), cleanup,
                                  finished, keep)
                && resources == if keep then old(resources) else old(resources)[..index] + old(resources)[index + 1..]
    {
      ghost var world, log, report, r := fs.world, fs.log, cleanup, resources[index];
      finished, left := InspectAt(fs, index, life);
      TookIsVisit(fs.provider, world, canRecurse, r, life, fs.world, log, fs.log, report, cleanup, finished);
    }

    /**
     One round of the awaiting loop: the entry after `front` is visited, and the walk
     made so far grows by the visit.
     */
    method VisitAt<W>(fs: FileSystem<W>, index: nat, life: Lifetime, ghost front: seq<Resource>, ghost r: Resource,
                      ghost sofar: Walked<W>, ghost whole: Walked<W>,
                      ghost log: seq<Event>, ghost report: CleanupReport)
      returns (finished: bool, left: Lifetime, ghost further: Walked<W>)
      requires resources == front + [r] + sofar.ledger && index == |front|
      requires Walks(sofar, fs.world, log, fs.log, report, cleanup)
      requires whole == Join(sofar, Walk(fs.provider, fs.world, canRecurse, front + [r], life))
      modifies fs, `cleanup, `resources
      ensures finished ==>
                && resources == front + further.ledger && Walks(further, fs.world, log, fs.log, report, cleanup)
                && whole == Join(further, Walk(fs.provider, fs.world, canRecurse, front, left))
      ensures !finished ==>
                && resources == whole.ledger && Walks(whole, fs.world, log, fs.log, report, cleanup)
                && !whole.finished && left == whole.life
    {
      ghost var d := Drive(fs.provider, fs.world, canRecurse, r, Inspecting, life);
      RemoveMiddle(front, r, sofar.ledger);
      WalkStep(fs.provider, sofar, canRecurse, front, r, life, whole);
      ghost var logged, noted := fs.log, cleanup;
      finished, left := ReleaseAt(fs, index, life);
      if finished {
        WalksOn(sofar, d, r, fs.world, log, logged, fs.log, report, noted, cleanup);
        further := Visited(sofar, d, r);
      } else {
        WalkDrops(sofar, d, front + [r], fs.world, log, logged, fs.log, report, noted, cleanup);
        further := whole;
      }
    }

    /** The loop of the awaiting attempt, walking indices downwards. */
    method SweepAsync<W>(fs: FileSystem<W>, life: Lifetime) returns (finished: bool, left: Lifetime)
      modifies fs, `resources, `cleanup
      ensures var k := Walk(fs.provider, old(fs.world), canRecurse, old(resources), life);
              && finished == k.finished && left == k.life && resources == k.ledger
              && Walks(k, fs.world, old(fs.log), fs.log, old(cleanup), cleanup)
    {
      left := life;
      ghost var front := resources;  // what is still to be visited
      ghost var whole := Walk(fs.provider, fs.world, canRecurse, front, life);
      ghost var sofar := Walked(fs.world, life, [], [], [], true);
      JoinNothing(sofar, whole);
      var index := |resources|;
      while index > 0
        invariant index == |front| && resources == front + sofar.ledger
        invariant Walks(sofar, fs.world, old(fs.log), fs.log, old(cleanup), cleanup)
        invariant whole == Join(sofar, Walk(fs.provider, fs.world, canRecurse, front, left))
      {
        index := index - 1;
        ghost var r := front[index];
        LastSplits(front);
        front := front[..index];
        finished, left, sofar := VisitAt(fs, index, left, front, r, sofar, whole, old(fs.log), old(cleanup));
        if !finished {
          return false, left;
        }
      }
      finished := true;
      WalkEnds(fs.provider, sofar, canRecurse, left, whole);
    }

    /** The awaiting attempt; dropping it leaves the ledger as it stands. */
    method CleanupAsync<W>(fs: FileSystem<W>, life: Lifetime) returns (finished: bool, left: Lifetime)
      requires Valid()
      modifies fs, `resources, `cleanup
      ensures Valid()
      ensures !canDelete ==> unchanged(fs) && unchanged(this) && finished && left == life
      ensures canDelete ==>
                var k := Walk(fs.provider, old(fs.world), canRecurse, old(resources), life);
                && finished == k.finished && left == k.life && resources == k.ledger
                && Walks(k, fs.world, old(fs.log), fs.log, old(cleanup), cleanup)
      ensures canDelete ==>
                Conducted(fs.provider, old(fs.world), canRecurse, old(resources), old(fs.log), fs.log,
                          old(cleanup), cleanup, fs.world, resources, finished)
    {
      finished, left := true, life;
      if canDelete {
        ghost var world, before, log, report := fs.world, resources, fs.log, cleanup;
        finished, left := SweepAsync(fs, life);
        WalkIsConducted(fs.provider, world, canRecurse, before, life, log, fs.log, report, cleanup, fs.world);
        AttemptKeepsOrdered(fs.provider, world, canRecurse, before, life, resourceIndex);
      }
    }
  }

  /**
   The calls logged since `logBefore` are one visit of `r`; it settled if it finished,
   kept the entry unless its last answer reported it gone, and then added one failure.
   */
  ghost predicate VisitConducted(recursive: bool, r: Resource, logBefore: seq<Event>, logAfter: seq<Event>,
                                 before: CleanupReport, after: CleanupReport, finished: bool, keep: bool) {
    && logBefore <= logAfter
    && var v := logAfter[|logBefore|..];
       && IsVisit(r, recursive, v) && (finished <==> Settled(v)) && (keep <==> !(Settled(v) && Gone(v)))
       && if finished && keep then
            && |after.failures| == |before.failures| + 1
            && after == before.(failures := before.failures + [after.failures[|before.failures|]])
            && IsFaultOf(after.failures[|before.failures|], r, v)
          else after == before
  }

  lemma {:induction false} TookIsVisit<W>(p: Provider<W>, w: W, recursive: bool, r: Resource, life: Lifetime, world: W,
                                          logBefore: seq<Event>, logAfter: seq<Event>,
                                          before: CleanupReport, after: CleanupReport, finished: bool)
    requires Took(Drive(p, w, recursive, r, Inspecting, life), world, logBefore, logAfter, before, after, finished)
    ensures var d := Drive(p, w, recursive, r, Inspecting, life);
            VisitConducted(recursive, r, logBefore, logAfter, before, after, finished, d.phase != Over(Released))
  {
    var d := Drive(p, w, recursive, r, Inspecting, life);
    VisitGoesOn(p, w, recursive, r, life);
    assert [] + d.events == d.events == logAfter[|logBefore|..];
    assert before.failures + [] == before.failures;
  }

  /** The visit `d` was made: its calls were logged and its complaint, if it ended with one, was saved. */
  ghost predicate Took<W>(d: Driven<W>, world: W, logBefore: seq<Event>, logAfter: seq<Event>,
                          before: CleanupReport, after: CleanupReport, finished: bool) {
    && finished == d.phase.Over? && world == d.world && logAfter == logBefore + d.events
    && after == before.(failures := before.failures + if d.phase.Over? then Failures(d.phase.verdict) else [])
  }

  /** One more call in front of the rest of a visit. */
  lemma {:induction false} TookThen<W>(p: Provider<W>, w: W, recursive: bool, r: Resource, phase: Phase, life: Lifetime,
                    world: W, logBefore: seq<Event>, logAfter: seq<Event>,
                    before: CleanupReport, after: CleanupReport, finished: bool)
    requires !phase.Over? && !life.Spent()
    requires var call := NextCall(r, recursive, phase);
             var (next, reply) := p.step(w, call);
             Took(Drive(p, next, recursive, r, Advance(r, phase, reply), life.Tick()),
                  world, logBefore + [Answered(call, reply)], logAfter, before, after, finished)
    ensures Took(Drive(p, w, recursive, r, phase, life), world, logBefore, logAfter, before, after, finished)
    ensures var (next, reply) := p.step(w, NextCall(r, recursive, phase));
            var d := Drive(p, w, recursive, r, phase, life);
            var rest := Drive(p, next, recursive, r, Advance(r, phase, reply), life.Tick());
            d.phase == rest.phase && d.life == rest.life
  {
    var call := NextCall(r, recursive, phase);
    var (next, reply) := p.step(w, call);
    var rest := Drive(p, next, recursive, r, Advance(r, phase, reply), life.Tick());
    Associates(logBefore, [Answered(call, reply)], rest.events);
  }

  /** The walk `k` was made: its calls were logged and its complaints saved, and nothing else of the report changed. */
  ghost predicate Walks<W>(k: Walked<W>, world: W, logBefore: seq<Event>, logAfter: seq<Event>,
                           before: CleanupReport, after: CleanupReport) {
    world == k.world && logAfter == logBefore + k.events && after == before.(failures := before.failures + k.failures)
  }

  /**
   The calls logged since `logBefore` are an attempt over `rs` that followed the order
   of stat, delete and verify, was answered by the provider, and left the failures and
   the ledger that its answers account for.
   */
  ghost predicate Conducted<W>(p: Provider<W>, w: W, recursive: bool, rs: seq<Resource>,
                               logBefore: seq<Event>, logAfter: seq<Event>,
                               before: CleanupReport, after: CleanupReport, world: W,
                               kept: seq<Resource>, finished: bool) {
    exists events, failures ::
      && logAfter == logBefore + events && after == before.(failures := before.failures + failures)
      && Audited(recursive, rs, events, failures, kept, finished)
      && ToldBy(p, w, events, world) && DeletesAreInformed(recursive, events)
  }

  /** What the blocking attempt keeps is stored by index, and in the order it had unless indices are shared. */
  ghost predicate IsOrderOf(resources: seq<Resource>, kept: seq<Resource>, before: seq<Resource>) {
    multiset(resources) == multiset(kept) && Pairwise(ByIndex, resources) && (Strict(before) ==> resources == kept)
  }

  ghost predicate ConductedToEnd<W>(p: Provider<W>, w: W, recursive: bool, rs: seq<Resource>,
                                    logBefore: seq<Event>, logAfter: seq<Event>,
                                    before: CleanupReport, after: CleanupReport, world: W, resources: seq<Resource>) {
    exists kept ::
      && Conducted(p, w, recursive, rs, logBefore, logAfter, before, after, world, kept, true)
      && IsOrderOf(resources, kept, rs)
  }

  lemma {:induction false} WalkIsConducted<W>(p: Provider<W>, w: W, recursive: bool, rs: seq<Resource>, life: Lifetime,
                                              logBefore: seq<Event>, logAfter: seq<Event>,
                                              before: CleanupReport, after: CleanupReport, world: W)
    requires Walks(Walk(p, w, recursive, rs, life), world, logBefore, logAfter, before, after)
    ensures var k := Walk(p, w, recursive, rs, life);
            Conducted(p, w, recursive, rs, logBefore, logAfter, before, after, world, k.ledger, k.finished)
  {
    var visits := AttemptIsAudited(p, w, recursive, rs, life);
    AuditIsConducted(p, w, recursive, rs, Walk(p, w, recursive, rs, life), visits, logBefore, logAfter, before, after);
  }

  lemma {:induction false} AuditIsConducted<W>(p: Provider<W>, w: W, recursive: bool, rs: seq<Resource>, k: Walked<W>,
                                               visits: seq<seq<Event>>, logBefore: seq<Event>, logAfter: seq<Event>,
                                               before: CleanupReport, after: CleanupReport)
    requires logAfter == logBefore + k.events && after == before.(failures := before.failures + k.failures)
    requires Joined(visits) == k.events && ToldBy(p, w, k.events, k.world)
    requires Accounts(recursive, rs, visits, k.failures, k.ledger, k.finished)
    ensures Conducted(p, w, recursive, rs, logBefore, logAfter, before, after, k.world, k.ledger, k.finished)
  {
    AuditedDeletesAreInformed(recursive, rs, visits, k.failures, k.ledger, k.finished);
    assert Audited(recursive, rs, k.events, k.failures, k.ledger, k.finished);
  }

  lemma {:induction false} WalksOn<W>(sofar: Walked<W>, d: Driven<W>, r: Resource, world: W,
                   log: seq<Event>, logBefore: seq<Event>, logAfter: seq<Event>,
                   report: CleanupReport, before: CleanupReport, after: CleanupReport)
    requires Walks(sofar, sofar.world, log, logBefore, report, before)
    requires Took(d, world, logBefore, logAfter, before, after, true)
    ensures Walks(Visited(sofar, d, r), world, log, logAfter, report, after)
  {
    Associates(log, sofar.events, d.events);
    Associates(report.failures, sofar.failures, Failures(d.phase.verdict));
  }

  lemma {:induction false} WalkDrops<W>(sofar: Walked<W>, d: Driven<W>, front: seq<Resource>, world: W,
                     log: seq<Event>, logBefore: seq<Event>, logAfter: seq<Event>,
                     report: CleanupReport, before: CleanupReport, after: CleanupReport)
    requires Walks(sofar, sofar.world, log, logBefore, report, before)
    requires Took(d, world, logBefore, logAfter, before, after, false)
    ensures Walks(Join(sofar, Walked(d.world, d.life, d.events, [], front, false)), world, log, logAfter, report, after)
  {
    Associates(log, sofar.events, d.events);
    assert sofar.failures + [] == sofar.failures && before.failures + [] == before.failures;
  }

  /** The ledger after visiting entry `index`: the entry is gone exactly if it was released. */
  function LedgerAfter(rs: seq<Resource>, index: nat, phase: Phase): seq<Resource>
    requires index < |rs|
  {
    if phase == Over(Released) then rs[..index] + rs[index + 1..] else rs
  }

  lemma {:induction false} RemoveMiddle(front: seq<Resource>, r: Resource, settled: seq<Resource>)
    ensures (front + [r] + settled)[|front|] == r
    ensures forall phase: Phase ::
              LedgerAfter(front + [r] + settled, |front|, phase) ==
              if phase == Over(Released) then front + settled else front + [r] + settled
    ensures front + [r] + settled == front + ([r] + settled) && [] + settled == settled
  {
    var all := front + [r] + settled;
    assert all[..|front|] == front && all[|front| + 1..] == settled;
  }

  lemma {:induction false} RetainOne(retained: seq<Resource>, r: Resource, verdict: Verdict)
    ensures Reverse(if verdict.Retained? then retained + [r] else retained) == Kept(r, verdict) + Reverse(retained)
  {
    ReverseConcat(retained, [r]);
    assert Reverse([r]) == [r] && [] + Reverse(retained) == Reverse(retained);
  }

  lemma {:induction false} WalkEnds<W>(p: Provider<W>, sofar: Walked<W>, recursive: bool, life: Lifetime,
                                       whole: Walked<W>)
    requires whole == Join(sofar, Walk(p, sofar.world, recursive, [], life))
    ensures whole == sofar.(life := life, finished := true)
  {
    assert sofar.events + [] == sofar.events && sofar.failures + [] == sofar.failures;
    assert [] + sofar.ledger == sofar.ledger;
  }

  lemma {:induction false} JoinNothing<W>(none: Walked<W>, rest: Walked<W>)
    requires none.events == [] && none.failures == [] && none.ledger == []
    ensures Join(none, rest) == rest
  {
    assert [] + rest.events == rest.events && [] + rest.failures == rest.failures && rest.ledger + [] == rest.ledger;
  }

  lemma {:induction false} ReverseTwice<T>(s: seq<T>)
    ensures Reverse(Reverse(s)) == s
  {
  }

  function Tracked(rs: seq<Resource>, counter: nat, path: Path, owner: string): (seq<Resource>, nat) {
    if exists r | r in rs :: r.path == path then (rs, counter)
    else (rs + [Resource(path, owner, SaturatingSucc(counter))], SaturatingSucc(counter))
  }

  /** Tracking keeps the ledger in creation order, with distinct indices until the counter saturates. */
  lemma {:induction false} TrackingKeepsOrdered(rs: seq<Resource>, counter: nat, path: Path, owner: string)
    requires Ordered(rs, counter) && counter <= U64_MAX
    ensures var (after, next) := Tracked(rs, counter, path, owner); Ordered(after, next) && next <= U64_MAX
  {
    if !exists r | r in rs :: r.path == path {
      var r := Resource(path, owner, SaturatingSucc(counter));
      var after := rs + [r];
      assert forall i | 0 <= i < |rs| :: rs[i] in rs && after[i] == rs[i];
      assert after[|rs|] == r;
      if SaturatingSucc(counter) < U64_MAX {
        assert Strict(rs);
        forall i, j | 0 <= i < j < |after| ensures !ByIndex(after[j], after[i]) {
          if j < |rs| {
            assert ((x, y) => !ByIndex(y, x))(rs[i], rs[j]);
          }
        }
      }
    }
  }
}
