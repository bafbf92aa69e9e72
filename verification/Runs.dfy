/** The retained result of one session and the verdict read from it. */
module Runs {
  import opened Common
  import opened Reports

  datatype CleanupReport = CleanupReport(attempts: nat, completed: bool, failures: seq<ContractFailure>)

  datatype ContractRun = ContractRun(report: ReportData, cleanup: CleanupReport,
                                     failures: seq<ContractFailure>, started: bool, completed: bool) {

    predicate ExecutionSatisfied() {
      completed && failures == [] && cleanup.completed && cleanup.failures == []
    }

    predicate WasInterrupted() {
      started && !completed
    }

    predicate RequirementsSatisfiedWith(required: seq<CheckId>) {
      ExecutionSatisfied() && report.RequirementsSatisfiedWith(required)
    }

    predicate AllApplicableChecksVerified() {
      ExecutionSatisfied() && report.AllApplicableChecksVerified()
    }
  }

  const EMPTY_RUN := ContractRun(EMPTY_REPORT, CleanupReport(0, false, []), [], false, false)

  /** The catalog of checks: what is known of each, and the order in which each phase lists them. */
  datatype FileSystemContract = FileSystemContract(name: string)

  datatype CheckSpec = CheckSpec(contract: FileSystemContract, capability: Option<Capability>,
                                 asynchronousOnly: bool, optional: bool)

  datatype Catalog = Catalog(specification: CheckId -> CheckSpec, order: FileSystemContract -> seq<CheckId>) {

    /** The checks a phase owns, as far as the driver can run them. */
    function ForContract(contract: FileSystemContract, asynchronous: bool): (ids: seq<CheckId>)
      ensures forall id | id in ids :: specification(id).contract == contract && id in order(contract)
      ensures forall id | id in order(contract) && specification(id).contract == contract
                && (asynchronous || !specification(id).asynchronousOnly) :: id in ids
      ensures forall id | id in ids :: asynchronous || !specification(id).asynchronousOnly
      ensures Subsequence(ids, order(contract))
    {
      Applicable(order(contract), contract, asynchronous)
    }

    function Applicable(ids: seq<CheckId>, contract: FileSystemContract, asynchronous: bool): (r: seq<CheckId>)
      ensures forall id | id in r :: specification(id).contract == contract && id in ids
      ensures forall id | id in ids && specification(id).contract == contract
                && (asynchronous || !specification(id).asynchronousOnly) :: id in r
      ensures forall id | id in r :: asynchronous || !specification(id).asynchronousOnly
      ensures Subsequence(r, ids)
    {
      if ids == [] then []
      else
        var spec := specification(ids[0]);
        var rest := Applicable(ids[1..], contract, asynchronous);
        if spec.contract == contract && (asynchronous || !spec.asynchronousOnly) then
          assert ([ids[0]] + rest)[1..] == rest;
          [ids[0]] + rest
        else rest
    }
  }

  /** `part` lists some elements of `whole`, in their order. */
  predicate Subsequence<T(==)>(part: seq<T>, whole: seq<T>) {
    if part == [] then true
    else if whole == [] then false
    else (part[0] == whole[0] && Subsequence(part[1..], whole[1..])) || Subsequence(part, whole[1..])
  }

  lemma {:induction false} ApplicableDistinct(c: Catalog, ids: seq<CheckId>, contract: FileSystemContract,
                                              asynchronous: bool)
    requires Distinct(ids)
    ensures Distinct(c.Applicable(ids, contract, asynchronous))
  {
    if ids != [] {
      assert ids[0] !in ids[1..];
      ApplicableDistinct(c, ids[1..], contract, asynchronous);
    }
  }

  /** Registers the checks of one phase, in order. */
  function PrepareIds(c: Catalog, report: ReportData, ids: seq<CheckId>): ReportData
    decreases |ids|
  {
    if ids == [] then report
    else PrepareIds(c, RegisteredData(report, ids[0], c.specification(ids[0]).capability), ids[1..])
  }

  function MessageOf(failure: ContractFailure): string {
    match failure.cause
    case Message(text) => text
    case FixtureFault(what, _) => what
    case Panicked(what, _) => what
    case CleanupFault(_) => "cleanup"
  }

  /** A completion as the catalog classifies the check. */
  function RecordFor(c: Catalog, report: ReportData, id: CheckId, capability: Option<Capability>,
                     outcome: Outcome): ReportData {
    RecordedData(report, id, capability, outcome, c.specification(id).optional)
  }

}
