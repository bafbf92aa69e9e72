/**
 The report of registered checks: three lists and a violation log that together
 behave as a write-once map, the verdict read from them, and the diagnostics
 that must agree with the verdict.
 */
module Reports {
  import opened Common

  datatype Capability = Capability(name: string)

  datatype Outcome =
    | Passed
    | RejectedAsExpected
    | NotApplicable(reason: string)
    | Unverified(reason: string)
    | SkippedOptional(reason: string)
    | Failed(reason: string)
    | NotRun(reason: string)

  datatype Check = Check(id: CheckId, capability: Option<Capability>, outcome: Outcome)

  datatype Violation =
    | DuplicateRegistration(id: CheckId)
    | CoreCheckSkipped(id: CheckId)
    | DuplicateCompletion(id: CheckId)
    | UnregisteredCheck(id: CheckId)

  /** Unicode white space, as removed by trimming. */
  predicate IsWhitespace(c: char) {
    || '\t' <= c <= '\r' || c == ' ' || c == '\U{85}' || c == '\U{A0}' || c == '\U{1680}'
    || '\U{2000}' <= c <= '\U{200A}' || c == '\U{2028}' || c == '\U{2029}' || c == '\U{202F}'
    || c == '\U{205F}' || c == '\U{3000}'
  }

  predicate Blank(reason: string) {
    forall c | c in reason :: IsWhitespace(c)
  }

  /** Whether an outcome is evidence enough, given whether the caller insists on the check. */
  predicate Acceptable(outcome: Outcome, required: bool) {
    match outcome
    case Passed => true
    case RejectedAsExpected => true
    case NotApplicable(reason) => !Blank(reason)
    case SkippedOptional(reason) => !Blank(reason) && !required
    case _ => false
  }

  datatype Defect =
    | Logged(violation: Violation)
    | NoRegisteredPhase
    | NotRecorded(id: CheckId)
    | BadEvidence(id: CheckId, reason: string)
    | SkippedButRequired(id: CheckId, reason: string)
    | MissingReason(id: CheckId)
    | OutsideRun(id: CheckId)

  predicate Distinct<T(==)>(s: seq<T>) {
    forall i, j | 0 <= i < j < |s| :: s[i] != s[j]
  }

  /** What the map says about a registered check. */
  datatype Slot = Pending | Done(capability: Option<Capability>, outcome: Outcome)

  function Lookup(checks: seq<Check>, id: CheckId): (r: Option<Check>)
    ensures r.Some? ==> r.value in checks && r.value.id == id
    ensures r.None? ==> forall c | c in checks :: c.id != id
  {
    if checks == [] then None else if checks[0].id == id then Some(checks[0]) else Lookup(checks[1..], id)
  }

  datatype ReportData = ReportData(checks: seq<Check>, expected: seq<CheckId>,
                                   pending: seq<CheckId>, violations: seq<Violation>) {

    predicate Checked(id: CheckId) {
      exists c | c in checks :: c.id == id
    }

    /** Holds of every report built by registrations and completions. */
    ghost predicate Valid() {
      && Distinct(expected) && Distinct(pending)
      && (forall i, j | 0 <= i < j < |checks| :: checks[i].id != checks[j].id)
      && (forall id | id in pending :: id in expected)
      && (forall c | c in checks :: c.id in expected)
      && (forall c | c in checks && c.id in pending :: c.outcome.NotRun?)
      && (forall id | id in expected && id !in pending :: Checked(id))
    }

    /** The write-once map the three lists stand for. */
    function Slots(): map<CheckId, Slot> {
      map id | id in expected :: SlotOf(id)
    }

    function SlotOf(id: CheckId): Slot {
      if id in pending then Pending
      else match Lookup(checks, id)
        case Some(c) => Done(c.capability, c.outcome)
        case None => Pending
    }

    predicate RequirementsSatisfiedWith(required: seq<CheckId>) {
      && expected != [] && pending == [] && violations == []
      && (forall id | id in expected :: Checked(id))
      && (forall c | c in checks :: Acceptable(c.outcome, c.id in required))
      && (forall id | id in required :: id in expected)
    }

    predicate AllApplicableChecksVerified() {
      RequirementsSatisfiedWith(expected)
    }

    /** What a reader of the report would object to, whether or not anything lists it. */
    predicate IsDefect(required: seq<CheckId>, d: Defect) {
      match d
      case Logged(violation) => violation in violations
      case NoRegisteredPhase => expected == []
      case NotRecorded(id) => id in expected && !Checked(id)
      case BadEvidence(id, reason) =>
        exists c | c in checks ::
          c.id == id && c.outcome in {Outcome.Unverified(reason), Failed(reason), NotRun(reason)}
      case SkippedButRequired(id, reason) =>
        id in required && exists c | c in checks :: c.id == id && c.outcome == SkippedOptional(reason)
      case MissingReason(id) =>
        exists c | c in checks ::
          && c.id == id && (c.outcome.SkippedOptional? || c.outcome.NotApplicable?)
          && Blank(c.outcome.reason) && (c.outcome.SkippedOptional? ==> id !in required)
      case OutsideRun(id) => id in required && id !in expected
    }
  }

  const EMPTY_REPORT := ReportData([], [], [], [])

  class ContractReport {
    var checks: seq<Check>
    var expected: seq<CheckId>
    var pending: seq<CheckId>
    var violations: seq<Violation>

    ghost predicate Valid()
      reads this
    {
      Data().Valid()
    }

    function Data(): ReportData
      reads this
    {
      ReportData(checks, expected, pending, violations)
    }

    constructor ()
      ensures Valid() && Data() == EMPTY_REPORT && Data().Slots() == map[]
    {
      checks, expected, pending, violations := [], [], [], [];
    }

    /** Registers an id without a check; a known id is left alone. */
    method Expect(id: CheckId)
      requires Valid()
      modifies this
      ensures Valid() && Data() == ExpectedData(old(Data()), id)
    {
      ExpectRefinesMap(Data(), id);
      if id !in expected {
        expected := expected + [id];
        pending := pending + [id];
      }
    }

    /** Registers an id with a placeholder check; a known id is a violation. */
    method Register(id: CheckId, capability: Option<Capability>)
      requires Valid()
      modifies this
      ensures Valid() && Data() == RegisteredData(old(Data()), id, capability)
      ensures violations == old(violations) + if id in old(expected) then [DuplicateRegistration(id)] else []
      ensures expected == old(expected) + if id in old(expected) then [] else [id]
      ensures pending == old(pending) + if id in old(expected) then [] else [id]
      ensures id in old(expected) ==> checks == old(checks)
      ensures id !in old(expected) ==>
                |checks| == |old(checks)| + 1 && old(checks) <= checks
                && checks[|old(checks)|].id == id && checks[|old(checks)|].capability == capability
                && checks[|old(checks)|].outcome.NotRun?
    {
      RegisterRefinesMap(Data(), id, capability);
      if id in expected {
        violations := violations + [DuplicateRegistration(id)];
        return;
      }
      Expect(id);
      checks := checks + [Check(id, capability, NotRun("check not yet executed"))];
    }

    /** Takes an id off the pending list, if it is there. */
    method RemovePending(id: CheckId) returns (found: bool)
      requires Distinct(pending)
      modifies `pending
      ensures found == (id in old(pending)) && pending == Except(old(pending), id)
    {
      for i := 0 to |pending|
        invariant pending == old(pending) && id !in pending[..i]
      {
        if pending[i] == id {
          RemovalIsUnique(pending, id, i);
          pending := pending[..i] + pending[i + 1..];
          return true;
        }
      }
      ExceptAbsent(pending, id);
      return false;
    }

    method FindCheck(id: CheckId) returns (index: Option<nat>)
      ensures index.None? ==> !Data().Checked(id)
      ensures index.Some? ==> index.value < |checks| && checks[index.value].id == id
    {
      for i := 0 to |checks|
        invariant forall k | 0 <= k < i :: checks[k].id != id
      {
        if checks[i].id == id {
          return Some(i);
        }
      }
      return None;
    }

    /** Overwrites the check with this id, or appends it. */
    method Store(done: Check)
      requires forall i, j | 0 <= i < j < |checks| :: checks[i].id != checks[j].id
      modifies `checks
      ensures checks == if old(Data()).Checked(done.id) then Completed(old(checks), done) else old(checks) + [done]
    {
      var at := FindCheck(done.id);
      if at.Some? {
        CheckIsUnique(checks, done, at.value);
        checks := checks[at.value := done];
      } else {
        checks := checks + [done];
      }
    }

    /**
     Completes a pending check exactly once. Whatever else is attempted leaves
     the map alone and is logged.
     */
    method Record(id: CheckId, capability: Option<Capability>, outcome: Outcome, optional: bool)
      requires Valid()
      modifies this
      ensures Data() == RecordedData(old(Data()), id, capability, outcome, optional)
      ensures Valid()
      ensures violations == old(violations)
                            + (if outcome.SkippedOptional? && !optional then [CoreCheckSkipped(id)] else [])
                            + (if id in old(pending) then []
                               else if id in old(expected) then [DuplicateCompletion(id)] else [UnregisteredCheck(id)])
      ensures expected == old(expected) && forall x :: x in pending <==> x in old(pending) && x != id
      ensures id !in old(pending) ==> checks == old(checks)
      ensures id in old(pending) ==>
                && Check(id, capability, outcome) in checks
                && forall c: Check | c.id != id :: c in checks <==> c in old(checks)
    {
      Complete(id, capability, outcome, optional);
      RecordMeans(old(Data()), id, capability, outcome, optional);
      RecordRefinesMap(old(Data()), id, capability, outcome, optional);
    }

    method Complete(id: CheckId, capability: Option<Capability>, outcome: Outcome, optional: bool)
      requires Distinct(pending) && forall i, j | 0 <= i < j < |checks| :: checks[i].id != checks[j].id
      modifies this
      ensures Data() == RecordedData(old(Data()), id, capability, outcome, optional)
    {
      if outcome.SkippedOptional? && !optional {
        violations := violations + [CoreCheckSkipped(id)];
      }
      var found := RemovePending(id);
      if !found {
        violations := violations + [if id in expected then DuplicateCompletion(id) else UnregisteredCheck(id)];
        ExceptAbsent(old(pending), id);
        return;
      }
      Store(Check(id, capability, outcome));
    }

    /**
     The issues named by a failing assertion. They are exactly the defects of
     the report, and there are none exactly when the requirements are met.
     */
    method Issues(required: seq<CheckId>) returns (issues: seq<Defect>)
      requires Valid()
      ensures forall d: Defect :: d in issues <==> Data().IsDefect(required, d)
      ensures issues == [] <==> Data().RequirementsSatisfiedWith(required)
    {
      ghost var data := Data();
      issues := [];
      for i := 0 to |violations|
        invariant forall d: Defect :: d in issues <==> d.Logged? && d.violation in violations[..i]
      {
        issues := issues + [Logged(violations[i])];
      }
      assert violations[..|violations|] == violations;
      if expected == [] {
        issues := issues + [NoRegisteredPhase];
      }
      for i := 0 to |expected|
        invariant forall d: Defect :: d in issues <==>
                              || ((d.Logged? || d.NoRegisteredPhase?) && data.IsDefect(required, d))
                              || (d.NotRecorded? && d.id in expected[..i] && !data.Checked(d.id))
      {
        var at := FindCheck(expected[i]);
        if at.None? {
          issues := issues + [NotRecorded(expected[i])];
        }
      }
      assert expected[..|expected|] == expected;
      for i := 0 to |checks|
        invariant forall d: Defect :: d in issues <==>
                              || ((d.Logged? || d.NoRegisteredPhase? || d.NotRecorded?) && data.IsDefect(required, d))
                              || (exists c | c in checks[..i] :: CheckDefect(c, required) == Some(d))
      {
        var issue := CheckDefect(checks[i], required);
        assert checks[..i + 1] == checks[..i] + [checks[i]];
        if issue.Some? {
          issues := issues + [issue.value];
        }
      }
      assert checks[..|checks|] == checks;
      CheckDefectsAreDefects(data, required);
      for i := 0 to |required|
        invariant forall d: Defect :: d in issues <==>
                              || (!d.OutsideRun? && data.IsDefect(required, d))
                              || (d.OutsideRun? && d.id in required[..i] && d.id !in expected)
      {
        if required[i] !in expected {
          issues := issues + [OutsideRun(required[i])];
        }
      }
      assert required[..|required|] == required;
      DefectsDecideVerdict(data, required);
      if issues != [] {
        assert data.IsDefect(required, issues[0]);
      }
    }
  }

  /** The issue raised by one check, if any: the match arms of the diagnostic loop. */
  function CheckDefect(c: Check, required: seq<CheckId>): Option<Defect> {
    match c.outcome
    case Unverified(reason) => Some(BadEvidence(c.id, reason))
    case Failed(reason) => Some(BadEvidence(c.id, reason))
    case NotRun(reason) => Some(BadEvidence(c.id, reason))
    case SkippedOptional(reason) =>
      if c.id in required then Some(SkippedButRequired(c.id, reason))
      else if Blank(reason) then Some(MissingReason(c.id)) else None
    case NotApplicable(reason) => if Blank(reason) then Some(MissingReason(c.id)) else None
    case _ => None
  }

  lemma {:induction false} CheckDefectsAreDefects(data: ReportData, required: seq<CheckId>)
    ensures forall d: Defect :: (exists c | c in data.checks :: CheckDefect(c, required) == Some(d)) <==>
                        (d.BadEvidence? || d.SkippedButRequired? || d.MissingReason?) && data.IsDefect(required, d)
  {
    forall d: Defect | (d.BadEvidence? || d.SkippedButRequired? || d.MissingReason?) && data.IsDefect(required, d)
      ensures exists c | c in data.checks :: CheckDefect(c, required) == Some(d)
    {
      match d
      case BadEvidence(id, reason) =>
        var c :| c in data.checks && c.id == id
                 && c.outcome in {Outcome.Unverified(reason), Failed(reason), NotRun(reason)};
        assert CheckDefect(c, required) == Some(d);
      case SkippedButRequired(id, reason) =>
        var c :| c in data.checks && c.id == id && c.outcome == SkippedOptional(reason);
        assert CheckDefect(c, required) == Some(d);
      case MissingReason(id) =>
        var c :| c in data.checks && c.id == id && (c.outcome.SkippedOptional? || c.outcome.NotApplicable?)
          && Blank(c.outcome.reason) && (c.outcome.SkippedOptional? ==> id !in required);
        assert CheckDefect(c, required) == Some(d);
      case _ =>
    }
  }

  /**
   In a reachable report the requirements are met exactly when there is no
   defect, although no defect mentions the pending list: a pending check is
   either unrecorded or still marked as not run.
   */
  lemma {:induction false} DefectsDecideVerdict(data: ReportData, required: seq<CheckId>)
    requires data.Valid()
    ensures data.RequirementsSatisfiedWith(required) <==> forall d: Defect :: !data.IsDefect(required, d)
  {
    if forall d: Defect :: !data.IsDefect(required, d) {
      assert !data.IsDefect(required, NoRegisteredPhase);
      if data.violations != [] {
        assert data.IsDefect(required, Logged(data.violations[0]));
      }
      forall id | id in data.expected ensures data.Checked(id) {
        assert !data.IsDefect(required, NotRecorded(id));
      }
      forall c | c in data.checks ensures Acceptable(c.outcome, c.id in required) {
        if !Acceptable(c.outcome, c.id in required) {
          UnacceptableIsDefect(data, required, c);
        }
      }
      if data.pending != [] {
        PendingIsDefect(data, required, data.pending[0]);
      }
      forall id | id in required ensures id in data.expected {
        assert !data.IsDefect(required, OutsideRun(id));
      }
    }
  }

  lemma {:induction false} PendingIsDefect(data: ReportData, required: seq<CheckId>, id: CheckId)
    requires data.Valid() && id in data.pending
    ensures exists d :: data.IsDefect(required, d)
  {
    if data.Checked(id) {
      var c :| c in data.checks && c.id == id;
      UnacceptableIsDefect(data, required, c);
    } else {
      assert data.IsDefect(required, NotRecorded(id));
    }
  }

  lemma {:induction false} UnacceptableIsDefect(data: ReportData, required: seq<CheckId>, c: Check)
    requires c in data.checks && !Acceptable(c.outcome, c.id in required)
    ensures exists d :: data.IsDefect(required, d)
  {
    var d := CheckDefect(c, required);
    assert d.Some?;
    assert data.IsDefect(required, d.value);
  }

  /** Outside the reachable reports the diagnostics can miss an unmet requirement. */
  lemma {:induction false} PendingInvariantIsNeeded(id: CheckId)
    ensures var data := ReportData([Check(id, None, Passed)], [id], [id], []);
            !data.Valid() && !data.RequirementsSatisfiedWith([]) && forall d: Defect :: !data.IsDefect([], d)
  {
    var data := ReportData([Check(id, None, Passed)], [id], [id], []);
    assert data.checks[0] in data.checks;
  }

  // ---------- the steps on values ----------

  function ExpectedData(d: ReportData, id: CheckId): ReportData {
    if id in d.expected then d else d.(expected := d.expected + [id], pending := d.pending + [id])
  }

  function RegisteredData(d: ReportData, id: CheckId, capability: Option<Capability>): ReportData {
    if id in d.expected then d.(violations := d.violations + [DuplicateRegistration(id)])
    else
      var e := ExpectedData(d, id);
      e.(checks := e.checks + [Check(id, capability, NotRun("check not yet executed"))])
  }

  function Except(s: seq<CheckId>, id: CheckId): (r: seq<CheckId>)
    ensures forall x | x in r :: x in s && x != id
    ensures forall x | x in s && x != id :: x in r
  {
    if s == [] then [] else if s[0] == id then Except(s[1..], id) else [s[0]] + Except(s[1..], id)
  }

  function Completed(checks: seq<Check>, done: Check): (r: seq<Check>)
    ensures |r| == |checks|
    ensures forall i | 0 <= i < |r| :: r[i] == if checks[i].id == done.id then done else checks[i]
  {
    if checks == [] then []
    else [if checks[0].id == done.id then done else checks[0]] + Completed(checks[1..], done)
  }

  /** Moves a pending check to its outcome. */
  function CompletedData(d: ReportData, done: Check): ReportData {
    var checks := if d.Checked(done.id) then Completed(d.checks, done) else d.checks + [done];
    ReportData(checks, d.expected, Except(d.pending, done.id), d.violations)
  }

  function Transgressions(d: ReportData, id: CheckId, outcome: Outcome, optional: bool): seq<Violation> {
    (if outcome.SkippedOptional? && !optional then [CoreCheckSkipped(id)] else []) +
    (if id in d.pending then []
     else if id in d.expected then [DuplicateCompletion(id)] else [UnregisteredCheck(id)])
  }

  function RecordedData(d: ReportData, id: CheckId, capability: Option<Capability>, outcome: Outcome,
                        optional: bool): ReportData {
    var logged := d.(violations := d.violations + Transgressions(d, id, outcome, optional));
    if id in d.pending then CompletedData(logged, Check(id, capability, outcome)) else logged
  }

  lemma {:induction false} ExceptAbsent(s: seq<CheckId>, id: CheckId)
    requires id !in s
    ensures Except(s, id) == s
  {
    if s != [] {
      assert s[0] in s;
      ExceptAbsent(s[1..], id);
    }
  }

  lemma {:induction false} ExceptDistinct(s: seq<CheckId>, id: CheckId)
    requires Distinct(s)
    ensures Distinct(Except(s, id))
  {
    if s != [] {
      assert s[0] !in s[1..];
      ExceptDistinct(s[1..], id);
    }
  }

  lemma {:induction false} RemovalIsUnique(s: seq<CheckId>, id: CheckId, i: nat)
    requires Distinct(s) && i < |s| && s[i] == id
    ensures s[..i] + s[i + 1..] == Except(s, id)
  {
    if i == 0 {
      assert id !in s[1..];
      ExceptAbsent(s[1..], id);
    } else {
      RemovalIsUnique(s[1..], id, i - 1);
      assert s[..i] == [s[0]] + s[1..][..i - 1] && s[1..][i..] == s[i + 1..];
    }
  }

  lemma {:induction false} CheckIsUnique(checks: seq<Check>, done: Check, i: nat)
    requires i < |checks| && checks[i].id == done.id
    requires forall i, j | 0 <= i < j < |checks| :: checks[i].id != checks[j].id
    ensures checks[i := done] == Completed(checks, done)
  {
  }

  lemma {:induction false} LookupAppended(checks: seq<Check>, c: Check, id: CheckId)
    ensures Lookup(checks + [c], id) ==
            if Lookup(checks, id).Some? then Lookup(checks, id) else if c.id == id then Some(c) else None
  {
    if checks == [] {
      assert [] + [c] == [c];
    } else {
      assert (checks + [c])[1..] == checks[1..] + [c];
      LookupAppended(checks[1..], c, id);
    }
  }

  lemma {:induction false} LookupCompleted(checks: seq<Check>, done: Check, id: CheckId)
    ensures Lookup(Completed(checks, done), id) ==
            if id == done.id && Lookup(checks, id).Some? then Some(done) else Lookup(checks, id)
  {
    if checks != [] {
      LookupCompleted(checks[1..], done, id);
    }
  }

  lemma {:induction false} ExpectRefinesMap(d: ReportData, id: CheckId)
    requires d.Valid()
    ensures var e := ExpectedData(d, id);
            e.Valid() && e.Slots() == if id in d.expected then d.Slots() else d.Slots()[id := Pending]
  {
    var e := ExpectedData(d, id);
    assert forall x :: e.Checked(x) <==> d.Checked(x);
  }

  /** A first registration adds a pending slot; a repeated one only logs. */
  lemma {:induction false} RegisterRefinesMap(d: ReportData, id: CheckId, capability: Option<Capability>)
    requires d.Valid()
    ensures var e := RegisteredData(d, id, capability);
            e.Valid() && e.Slots() == if id in d.expected then d.Slots() else d.Slots()[id := Pending]
  {
    if id in d.expected {
      LoggingKeepsValid(d, d.violations + [DuplicateRegistration(id)]);
    } else {
      ExpectRefinesMap(d, id);
      PlaceholderRefinesMap(ExpectedData(d, id), Check(id, capability, NotRun("check not yet executed")));
    }
  }

  lemma {:induction false} PlaceholderRefinesMap(d: ReportData, c: Check)
    requires d.Valid() && c.id in d.pending && !d.Checked(c.id) && c.outcome.NotRun?
    ensures d.(checks := d.checks + [c]).Valid() && d.(checks := d.checks + [c]).Slots() == d.Slots()
  {
    var e := d.(checks := d.checks + [c]);
    AppendKeepsIds(d.checks, c);
    assert forall x | d.Checked(x) :: e.Checked(x);
    forall x ensures e.SlotOf(x) == d.SlotOf(x) {
      LookupAppended(d.checks, c, x);
    }
  }

  lemma {:induction false} AppendKeepsIds(checks: seq<Check>, c: Check)
    ensures forall x | x in checks :: x in checks + [c]
    ensures forall x | x in checks + [c] :: x in checks || x == c
    ensures c in checks + [c]
  {
  }

  lemma {:induction false} CompletedKeepsIds(checks: seq<Check>, done: Check)
    ensures forall x | x in checks && x.id != done.id :: x in Completed(checks, done)
    ensures forall x | x in Completed(checks, done) :: (x in checks && x.id != done.id) || x == done
    ensures (exists x | x in checks :: x.id == done.id) ==> done in Completed(checks, done)
    ensures forall i | 0 <= i < |checks| :: Completed(checks, done)[i].id == checks[i].id
  {
    var r := Completed(checks, done);
    forall x | x in checks ensures (if x.id == done.id then done else x) in r {
      var i :| 0 <= i < |checks| && checks[i] == x;
      assert r[i] in r;
    }
    forall x | x in r ensures (x in checks && x.id != done.id) || x == done {
      var i :| 0 <= i < |r| && r[i] == x;
      assert checks[i] in checks;
    }
  }

  lemma {:induction false} CompletionKeepsValid(d: ReportData, done: Check)
    requires d.Valid() && done.id in d.pending
    ensures CompletedData(d, done).Valid()
  {
    ExceptDistinct(d.pending, done.id);
    AppendKeepsIds(d.checks, done);
    CompletedKeepsIds(d.checks, done);
    var e := CompletedData(d, done);
    assert done in e.checks;
    forall x | x in e.expected && x !in e.pending ensures e.Checked(x) {
      if x != done.id {
        assert d.Checked(x);
      }
    }
  }

  lemma {:induction false} CompletionWritesSlot(d: ReportData, done: Check)
    requires d.Valid() && done.id in d.pending
    ensures CompletedData(d, done).Slots() == d.Slots()[done.id := Done(done.capability, done.outcome)]
  {
    var e := CompletedData(d, done);
    forall x ensures Lookup(e.checks, x) == if x == done.id then Some(done) else Lookup(d.checks, x) {
      LookupAppended(d.checks, done, x);
      LookupCompleted(d.checks, done, x);
    }
    assert forall x :: e.SlotOf(x) == if x == done.id then Done(done.capability, done.outcome) else d.SlotOf(x);
  }

  lemma {:induction false} LoggingKeepsValid(d: ReportData, violations: seq<Violation>)
    requires d.Valid()
    ensures d.(violations := violations).Valid() && d.(violations := violations).Slots() == d.Slots()
  {
    var e := d.(violations := violations);
    assert forall x :: e.Checked(x) <==> d.Checked(x);
  }

  /** What a completion does to each of the four lists. */
  lemma {:induction false} RecordMeans(d: ReportData, id: CheckId, capability: Option<Capability>, outcome: Outcome,
                                       optional: bool)
    ensures var e := RecordedData(d, id, capability, outcome, optional);
            && e.violations == d.violations
                               + (if outcome.SkippedOptional? && !optional then [CoreCheckSkipped(id)] else [])
                               + (if id in d.pending then []
                                  else if id in d.expected then [DuplicateCompletion(id)] else [UnregisteredCheck(id)])
            && e.expected == d.expected && (forall x :: x in e.pending <==> x in d.pending && x != id)
            && (id !in d.pending ==> e.checks == d.checks)
            && (id in d.pending ==>
                  && Check(id, capability, outcome) in e.checks
                  && (forall c: Check | c.id != id :: c in e.checks <==> c in d.checks)
                  && (forall c | c in e.checks && c.id == id :: c == Check(id, capability, outcome)))
  {
    CompletedKeepsIds(d.checks, Check(id, capability, outcome));
    AppendKeepsIds(d.checks, Check(id, capability, outcome));
  }

  /** A completion writes its slot once; every other attempt leaves the map alone. */
  lemma {:induction false} RecordRefinesMap(d: ReportData, id: CheckId, capability: Option<Capability>,
                                            outcome: Outcome, optional: bool)
    requires d.Valid()
    ensures var e := RecordedData(d, id, capability, outcome, optional);
            && e.Valid()
            && e.Slots() == if id in d.pending then d.Slots()[id := Done(capability, outcome)] else d.Slots()
  {
    var logged := d.(violations := d.violations + Transgressions(d, id, outcome, optional));
    LoggingKeepsValid(d, logged.violations);
    if id in d.pending {
      CompletionKeepsValid(logged, Check(id, capability, outcome));
      CompletionWritesSlot(logged, Check(id, capability, outcome));
    }
  }

  // ---------- whole histories of a report ----------

  datatype ReportOp =
    | Expecting(id: CheckId)
    | Registering(id: CheckId, capability: Option<Capability>)
    | Recording(id: CheckId, capability: Option<Capability>, outcome: Outcome, optional: bool)

  function Apply(d: ReportData, op: ReportOp): ReportData {
    match op
    case Expecting(id) => ExpectedData(d, id)
    case Registering(id, capability) => RegisteredData(d, id, capability)
    case Recording(id, capability, outcome, optional) => RecordedData(d, id, capability, outcome, optional)
  }

  function ApplyAll(d: ReportData, ops: seq<ReportOp>): ReportData
    decreases |ops|
  {
    if ops == [] then d else ApplyAll(Apply(d, ops[0]), ops[1..])
  }

  /** The write-once map: first registration opens a slot, first completion fills it. */
  function MapStep(m: map<CheckId, Slot>, op: ReportOp): map<CheckId, Slot> {
    if op.Recording? then
      if op.id in m && m[op.id].Pending? then m[op.id := Done(op.capability, op.outcome)] else m
    else if op.id in m then m else m[op.id := Pending]
  }

  function MapAll(m: map<CheckId, Slot>, ops: seq<ReportOp>): map<CheckId, Slot>
    decreases |ops|
  {
    if ops == [] then m else MapAll(MapStep(m, ops[0]), ops[1..])
  }

  lemma {:induction false} PendingSlots(d: ReportData, id: CheckId)
    requires d.Valid()
    ensures id in d.pending <==> id in d.Slots() && d.Slots()[id].Pending?
  {
    if id in d.expected && id !in d.pending {
      assert d.Checked(id);
    }
  }

  /** Over every sequence of registrations and completions the three lists stay consistent and refine the map. */
  lemma {:induction false} ReportRefinesMap(d: ReportData, ops: seq<ReportOp>)
    requires d.Valid()
    ensures ApplyAll(d, ops).Valid() && ApplyAll(d, ops).Slots() == MapAll(d.Slots(), ops)
    decreases |ops|
  {
    if ops != [] {
      match ops[0] {
        case Expecting(id) => ExpectRefinesMap(d, id);
        case Registering(id, capability) => RegisterRefinesMap(d, id, capability);
        case Recording(id, capability, outcome, optional) =>
          RecordRefinesMap(d, id, capability, outcome, optional);
          PendingSlots(d, id);
      }
      ReportRefinesMap(Apply(d, ops[0]), ops[1..]);
    }
  }

  /** A completed check never changes again. */
  lemma {:induction false} CompletionIsFinal(m: map<CheckId, Slot>, ops: seq<ReportOp>, id: CheckId)
    requires id in m && m[id].Done?
    ensures id in MapAll(m, ops) && MapAll(m, ops)[id] == m[id]
    decreases |ops|
  {
    if ops != [] {
      CompletionIsFinal(MapStep(m, ops[0]), ops[1..], id);
    }
  }

  lemma {:induction false} ViolationsOnlyGrow(d: ReportData, ops: seq<ReportOp>)
    ensures d.violations <= ApplyAll(d, ops).violations
    decreases |ops|
  {
    if ops != [] {
      ViolationsOnlyGrow(Apply(d, ops[0]), ops[1..]);
    }
  }

  /** A logged violation, or a completion that no policy accepts. */
  ghost predicate Doomed(d: ReportData)
    requires d.Valid()
  {
    || d.violations != []
    || exists id | id in d.Slots() :: d.Slots()[id].Done? && !Acceptable(d.Slots()[id].outcome, false)
  }

  /** Bad evidence cannot be undone, and no policy is satisfied with it. */
  lemma {:induction false} DoomIsForever(d: ReportData, ops: seq<ReportOp>, required: seq<CheckId>)
    requires d.Valid() && Doomed(d)
    ensures ApplyAll(d, ops).Valid() && Doomed(ApplyAll(d, ops))
    ensures !ApplyAll(d, ops).RequirementsSatisfiedWith(required)
  {
    ReportRefinesMap(d, ops);
    ViolationsOnlyGrow(d, ops);
    var e := ApplyAll(d, ops);
    if d.violations == [] {
      var id :| id in d.Slots() && d.Slots()[id].Done? && !Acceptable(d.Slots()[id].outcome, false);
      CompletionIsFinal(d.Slots(), ops, id);
      assert e.SlotOf(id) == d.Slots()[id];
    }
    DoomedIsUnsatisfied(e, required);
  }

  lemma {:induction false} DoomedIsUnsatisfied(d: ReportData, required: seq<CheckId>)
    requires d.Valid() && Doomed(d)
    ensures !d.RequirementsSatisfiedWith(required)
  {
    if d.violations == [] {
      var id :| id in d.Slots() && d.Slots()[id].Done? && !Acceptable(d.Slots()[id].outcome, false);
      UnacceptableSlot(d, required, id);
    }
  }

  lemma {:induction false} UnacceptableSlot(d: ReportData, required: seq<CheckId>, id: CheckId)
    requires d.SlotOf(id).Done? && !Acceptable(d.SlotOf(id).outcome, false)
    ensures !d.RequirementsSatisfiedWith(required)
  {
    var c := Lookup(d.checks, id);
    assert c.Some? && c.value in d.checks;
    assert !Acceptable(c.value.outcome, c.value.id in required);
  }

  // ---------- the order of checks ----------

  function Ids(checks: seq<Check>): (ids: seq<CheckId>)
    ensures |ids| == |checks|
    ensures forall i | 0 <= i < |ids| :: ids[i] == checks[i].id
  {
    seq(|checks|, i requires 0 <= i < |checks| => checks[i].id)
  }

  lemma {:induction false} IdsAfterAppend(checks: seq<Check>, c: Check)
    ensures Ids(checks + [c]) == Ids(checks) + [c.id]
  {
  }

  lemma {:induction false} IdsAfterCompletion(checks: seq<Check>, done: Check)
    ensures Ids(Completed(checks, done)) == Ids(checks)
  {
  }

  lemma {:induction false} ListedIsChecked(d: ReportData, id: CheckId)
    requires id in Ids(d.checks)
    ensures d.Checked(id)
  {
    var i :| 0 <= i < |d.checks| && Ids(d.checks)[i] == id;
    assert d.checks[i] in d.checks;
  }

  lemma {:induction false} StepKeepsOrder(d: ReportData, op: ReportOp)
    requires Ids(d.checks) == d.expected && (forall id | id in d.pending :: id in d.expected) && !op.Expecting?
    ensures Ids(Apply(d, op).checks) == Apply(d, op).expected
  {
    match op {
      case Registering(id, capability) =>
        IdsAfterAppend(d.checks, Check(id, capability, NotRun("check not yet executed")));
      case Recording(id, capability, outcome, _) =>
        if id in d.pending {
          ListedIsChecked(d, id);
          IdsAfterCompletion(d.checks, Check(id, capability, outcome));
        }
      case Expecting(_) =>
    }
  }

  /** Checks are listed in the order of their registration, whatever the order of their completions. */
  lemma {:induction false} ChecksStayInRegistrationOrder(d: ReportData, ops: seq<ReportOp>)
    requires d.Valid() && Ids(d.checks) == d.expected && forall op | op in ops :: !op.Expecting?
    ensures Ids(ApplyAll(d, ops).checks) == ApplyAll(d, ops).expected
    decreases |ops|
  {
    if ops != [] {
      StepKeepsOrder(d, ops[0]);
      ReportRefinesMap(d, [ops[0]]);
      assert ApplyAll(d, [ops[0]]) == ApplyAll(Apply(d, ops[0]), [ops[0]][1..]) == Apply(d, ops[0]);
      ChecksStayInRegistrationOrder(Apply(d, ops[0]), ops[1..]);
    }
  }

  // ---------- requirement policies ----------

  /** Requiring two selections is requiring their union; requiring more is never easier. */
  lemma {:induction false} PoliciesCombine(d: ReportData, r: seq<CheckId>, s: seq<CheckId>)
    ensures d.RequirementsSatisfiedWith(r + s) <==> d.RequirementsSatisfiedWith(r) && d.RequirementsSatisfiedWith(s)
  {
    assert forall id :: id in r + s <==> id in r || id in s;
    if d.RequirementsSatisfiedWith(r) && d.RequirementsSatisfiedWith(s) {
      forall c | c in d.checks ensures Acceptable(c.outcome, c.id in r + s) {
        assert Acceptable(c.outcome, c.id in r) && Acceptable(c.outcome, c.id in s);
      }
    }
  }

  lemma {:induction false} PolicyIsAntitone(d: ReportData, r: seq<CheckId>, s: seq<CheckId>)
    requires d.RequirementsSatisfiedWith(s) && forall id | id in r :: id in s
    ensures d.RequirementsSatisfiedWith(r)
  {
    forall c | c in d.checks ensures Acceptable(c.outcome, c.id in r) {
      assert Acceptable(c.outcome, c.id in s);
    }
  }

  /**
   In a reachable report every applicable check is verified exactly when the
   default requirements hold and nothing was skipped, which is the strongest policy
   the run can meet.
   */
  lemma {:induction false} AllApplicableIsStrongest(d: ReportData, required: seq<CheckId>)
    requires d.Valid()
    ensures d.AllApplicableChecksVerified() <==>
            d.RequirementsSatisfiedWith([]) && forall c | c in d.checks :: !c.outcome.SkippedOptional?
    ensures d.AllApplicableChecksVerified() && (forall id | id in required :: id in d.expected) ==>
            d.RequirementsSatisfiedWith(required)
  {
    forall c | c in d.checks
      ensures Acceptable(c.outcome, c.id in d.expected) <==>
              Acceptable(c.outcome, false) && !c.outcome.SkippedOptional?
    {
      assert c.id in d.expected;
    }
    if d.AllApplicableChecksVerified() && forall id | id in required :: id in d.expected {
      PolicyIsAntitone(d, required, d.expected);
    }
  }
}
