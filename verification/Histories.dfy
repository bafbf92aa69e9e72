/** What the verdict of a report means over the registrations and completions that built it. */
module Histories {
  import opened Common
  import opened StableSorting
  import opened Reports

  /** The checks that were registered, by either kind of registration. */
  function RegisteredIn(ops: seq<ReportOp>): set<CheckId> {
    set op | op in ops && !op.Recording? :: op.id
  }

  /** The checks that someone tried to complete. */
  function CompletedIn(ops: seq<ReportOp>): set<CheckId> {
    set op | op in ops && op.Recording? :: op.id
  }

  /** Registered once, completed once and after that, and never skipped unless optional. */
  predicate OrderlyAt(before: seq<ReportOp>, op: ReportOp) {
    match op
    case Expecting(_) => true
    case Registering(id, _) => id !in RegisteredIn(before)
    case Recording(id, _, outcome, optional) =>
      id in RegisteredIn(before) && id !in CompletedIn(before) && (outcome.SkippedOptional? ==> optional)
  }

  predicate Orderly(ops: seq<ReportOp>) {
    forall n | 0 <= n < |ops| :: OrderlyAt(ops[..n], ops[n])
  }

  /** Evidence enough: a verified check, or one that is inapplicable or was skipped for a stated reason. */
  predicate Sufficient(outcome: Outcome, required: bool) {
    || outcome.Passed? || outcome.RejectedAsExpected?
    || (outcome.NotApplicable? && exists c :: c in outcome.reason && !IsWhitespace(c))
    || (outcome.SkippedOptional? && !required && exists c :: c in outcome.reason && !IsWhitespace(c))
  }

  predicate Complete(ops: seq<ReportOp>, required: seq<CheckId>) {
    && RegisteredIn(ops) != {} && RegisteredIn(ops) == CompletedIn(ops)
    && (forall op | op in ops && op.Recording? :: Sufficient(op.outcome, op.id in required))
    && (forall id | id in required :: id in RegisteredIn(ops))
  }

  /** What the four lists say about an orderly history. */
  ghost predicate Mirrors(e: ReportData, ops: seq<ReportOp>) {
    && (forall id :: id in e.pending <==> id in RegisteredIn(ops) && id !in CompletedIn(ops))
    && (forall c | c in e.checks && c.id !in e.pending ::
          exists op :: op in ops && op.Recording? && op.id == c.id
                       && op.capability == c.capability && op.outcome == c.outcome)
    && (forall op | op in ops && op.Recording? :: Check(op.id, op.capability, op.outcome) in e.checks)
  }

  lemma {:induction false} ApplyLast(d: ReportData, ops: seq<ReportOp>, op: ReportOp)
    ensures ApplyAll(d, ops + [op]) == Apply(ApplyAll(d, ops), op)
    decreases |ops|
  {
    if ops == [] {
      assert ops + [op] == [op] && [op][1..] == [];
      assert ApplyAll(d, [op]) == ApplyAll(Apply(d, op), []);
    } else {
      assert (ops + [op])[1..] == ops[1..] + [op];
      ApplyLast(Apply(d, ops[0]), ops[1..], op);
    }
  }

  lemma {:induction false} SetsLast(ops: seq<ReportOp>, op: ReportOp)
    ensures RegisteredIn(ops + [op]) == RegisteredIn(ops) + if op.Recording? then {} else {op.id}
    ensures CompletedIn(ops + [op]) == CompletedIn(ops) + if op.Recording? then {op.id} else {}
  {
    var all := ops + [op];
    assert all[|ops|] == op && forall x :: x in all <==> x in ops || x == op;
  }

  lemma {:induction false} OrderlyLast(ops: seq<ReportOp>, op: ReportOp)
    ensures Orderly(ops + [op]) <==> Orderly(ops) && OrderlyAt(ops, op)
  {
    var all := ops + [op];
    assert all[..|ops|] == ops && all[|ops|] == op;
    assert forall n | 0 <= n < |ops| :: all[..n] == ops[..n] && all[n] == ops[n];
  }

  lemma {:induction false} StepMirrors(d: ReportData, ops: seq<ReportOp>, op: ReportOp)
    requires d.Valid() && Mirrors(d, ops) && OrderlyAt(ops, op)
    requires forall id :: id in d.expected <==> id in RegisteredIn(ops)
    ensures Mirrors(Apply(d, op), ops + [op])
  {
    SetsLast(ops, op);
    assert (ops + [op])[|ops|] == op && forall x :: x in ops + [op] <==> x in ops || x == op;
    if op.Recording? {
      CompletionMirrors(d, ops, op);
    }
  }

  lemma {:induction false} CompletionMirrors(d: ReportData, ops: seq<ReportOp>, op: ReportOp)
    requires op.Recording? && Mirrors(d, ops) && OrderlyAt(ops, op)
    requires forall x :: x in ops + [op] <==> x in ops || x == op
    requires CompletedIn(ops + [op]) == CompletedIn(ops) + {op.id} && RegisteredIn(ops + [op]) == RegisteredIn(ops)
    ensures Mirrors(Apply(d, op), ops + [op])
  {
    var e := Apply(d, op);
    RecordMeans(d, op.id, op.capability, op.outcome, op.optional);
    forall c | c in e.checks && c.id !in e.pending
      ensures exists x :: x in ops + [op] && x.Recording? && x.id == c.id && x.capability == c.capability
                          && x.outcome == c.outcome
    {
      if c.id == op.id {
        assert op in ops + [op];
      } else {
        assert c in d.checks && c.id !in d.pending;
        var x :| x in ops && x.Recording? && x.id == c.id && x.capability == c.capability && x.outcome == c.outcome;
        assert x in ops + [op];
      }
    }
    forall x | x in ops + [op] && x.Recording? ensures Check(x.id, x.capability, x.outcome) in e.checks {
      if x in ops {
        assert x.id in CompletedIn(ops);
      }
    }
  }

  /**
   The report of a history lists what was registered, complains unless the history was
   orderly, and then mirrors it.
   */
  lemma {:induction false} HistoryMirrored(ops: seq<ReportOp>)
    ensures var e := ApplyAll(EMPTY_REPORT, ops);
            && e.Valid() && (forall id :: id in e.expected <==> id in RegisteredIn(ops))
            && (e.violations == [] <==> Orderly(ops)) && (Orderly(ops) ==> Mirrors(e, ops))
    decreases |ops|
  {
    if ops != [] {
      var before, op := ops[..|ops| - 1], ops[|ops| - 1];
      LastSplits(ops);
      HistoryMirrored(before);
      ApplyLast(EMPTY_REPORT, before, op);
      SetsLast(before, op);
      OrderlyLast(before, op);
      var d := ApplyAll(EMPTY_REPORT, before);
      ReportRefinesMap(EMPTY_REPORT, ops);
      StepComplains(d, before, op);
      if Orderly(ops) {
        StepMirrors(d, before, op);
      }
    }
  }

  lemma {:induction false} StepComplains(d: ReportData, ops: seq<ReportOp>, op: ReportOp)
    requires d.Valid() && (forall id :: id in d.expected <==> id in RegisteredIn(ops))
    requires d.violations == [] <==> Orderly(ops)
    requires Orderly(ops) ==> Mirrors(d, ops)
    ensures Apply(d, op).violations == [] <==> Orderly(ops) && OrderlyAt(ops, op)
    ensures forall id :: id in Apply(d, op).expected <==> id in RegisteredIn(ops + [op])
  {
    SetsLast(ops, op);
    if op.Recording? {
      RecordMeans(d, op.id, op.capability, op.outcome, op.optional);
    }
  }

  /**
   A report meets a policy exactly when, in the history that built it, something was
   registered, every registered check was registered once and completed exactly once
   and after that, nothing else was completed, no core check was skipped, every
   outcome is evidence enough under the policy, and the policy asks for nothing that
   was not registered.
   */
  lemma {:induction false} SatisfiedIffOrderlyAndComplete(ops: seq<ReportOp>, required: seq<CheckId>)
    ensures ApplyAll(EMPTY_REPORT, ops).RequirementsSatisfiedWith(required) <==> Orderly(ops) && Complete(ops, required)
  {
    var e := ApplyAll(EMPTY_REPORT, ops);
    HistoryMirrored(ops);
    if e.RequirementsSatisfiedWith(required) {
      SatisfiedIsComplete(e, ops, required);
    }
    if Orderly(ops) && Complete(ops, required) {
      CompleteIsSatisfied(e, ops, required);
    }
  }

  lemma {:induction false} SufficientIsAcceptable(outcome: Outcome, required: bool)
    ensures Acceptable(outcome, required) <==> Sufficient(outcome, required)
  {
  }

  lemma {:induction false} SatisfiedIsComplete(e: ReportData, ops: seq<ReportOp>, required: seq<CheckId>)
    requires e.RequirementsSatisfiedWith(required) && Mirrors(e, ops)
    requires forall id :: id in e.expected <==> id in RegisteredIn(ops)
    requires forall n | 0 <= n < |ops| && ops[n].Recording? :: ops[n].id in RegisteredIn(ops)
    ensures Complete(ops, required)
  {
    assert e.expected[0] in RegisteredIn(ops);
    forall op | op in ops && op.Recording? ensures Sufficient(op.outcome, op.id in required) {
      var c := Check(op.id, op.capability, op.outcome);
      assert c in e.checks && Acceptable(c.outcome, c.id in required);
      SufficientIsAcceptable(op.outcome, op.id in required);
    }
    forall id ensures id in RegisteredIn(ops) <==> id in CompletedIn(ops) {
      if id in RegisteredIn(ops) {
        assert id !in e.pending;
      }
    }
  }

  lemma {:induction false} CompleteIsSatisfied(e: ReportData, ops: seq<ReportOp>, required: seq<CheckId>)
    requires e.Valid() && e.violations == [] && Mirrors(e, ops) && Complete(ops, required)
    requires forall id :: id in e.expected <==> id in RegisteredIn(ops)
    ensures e.RequirementsSatisfiedWith(required)
  {
    var some :| some in RegisteredIn(ops);
    assert some in e.expected;
    NoMembers(e.pending);
    forall c | c in e.checks ensures Acceptable(c.outcome, c.id in required) {
      SufficientIsAcceptable(c.outcome, c.id in required);
    }
  }

  lemma {:induction false} NoMembers<T>(s: seq<T>)
    ensures s != [] ==> exists x :: x in s
  {
    if s != [] {
      assert s[0] in s;
    }
  }

  /** Completing a check a second time is logged, whatever the outcomes, and spoils every policy. */
  lemma {:induction false} SecondCompletionIsLogged(id: CheckId, capability: Option<Capability>, first: Outcome,
                                                    second: Outcome, optional: bool, required: seq<CheckId>)
    ensures var e := ApplyAll(EMPTY_REPORT, [Registering(id, capability), Recording(id, capability, first, optional),
                                             Recording(id, capability, second, optional)]);
            DuplicateCompletion(id) in e.violations && !e.RequirementsSatisfiedWith(required)
  {
    var a, b, c := Registering(id, capability), Recording(id, capability, first, optional),
                   Recording(id, capability, second, optional);
    assert [a, b, c] == [a] + [b] + [c];
    ApplyLast(EMPTY_REPORT, [], a);
    ApplyLast(EMPTY_REPORT, [a], b);
    ApplyLast(EMPTY_REPORT, [a] + [b], c);
    assert [] + [a] == [a];
    var d := ApplyAll(EMPTY_REPORT, [a]);
    RecordMeans(d, id, capability, first, optional);
    RecordMeans(Apply(d, b), id, capability, second, optional);
  }

  // ---------- what the diagnostics name ----------

  function NamedBy(d: Defect): Option<CheckId> {
    match d
    case Logged(_) => None
    case NoRegisteredPhase => None
    case _ => Some(d.id)
  }

  /**
   A defect names a check exactly when the check is registered and unrecorded, has
   insufficient evidence, or is required and was not registered.
   */
  lemma {:induction false} DefectsNameShortfalls(data: ReportData, required: seq<CheckId>, id: CheckId)
    ensures (exists d :: NamedBy(d) == Some(id) && data.IsDefect(required, d)) <==>
            || (id in data.expected && forall c | c in data.checks :: c.id != id)
            || (exists c :: c in data.checks && c.id == id && !Sufficient(c.outcome, id in required))
            || (id in required && id !in data.expected)
  {
    if d :| NamedBy(d) == Some(id) && data.IsDefect(required, d) {
      match d {
        case BadEvidence(_, reason) =>
          var c :| c in data.checks && c.id == id
                   && c.outcome in {Outcome.Unverified(reason), Failed(reason), NotRun(reason)};
          assert !Sufficient(c.outcome, id in required);
        case SkippedButRequired(_, reason) =>
          var c :| c in data.checks && c.id == id && c.outcome == SkippedOptional(reason);
          assert !Sufficient(c.outcome, id in required);
        case MissingReason(_) =>
          var c :| c in data.checks && c.id == id && (c.outcome.SkippedOptional? || c.outcome.NotApplicable?)
                   && Blank(c.outcome.reason) && (c.outcome.SkippedOptional? ==> id !in required);
          assert !Sufficient(c.outcome, id in required);
        case _ =>
      }
    }
    if id in data.expected && forall c | c in data.checks :: c.id != id {
      assert NamedBy(NotRecorded(id)) == Some(id) && data.IsDefect(required, NotRecorded(id));
    }
    if c :| c in data.checks && c.id == id && !Sufficient(c.outcome, id in required) {
      InsufficientIsNamed(data, required, c);
    }
    if id in required && id !in data.expected {
      assert NamedBy(OutsideRun(id)) == Some(id) && data.IsDefect(required, OutsideRun(id));
    }
  }

  /** Insufficient evidence is named with the reason that was given for it. */
  lemma {:induction false} InsufficientIsNamed(data: ReportData, required: seq<CheckId>, c: Check)
    requires c in data.checks && !Sufficient(c.outcome, c.id in required)
    ensures exists d :: NamedBy(d) == Some(c.id) && data.IsDefect(required, d)
    ensures c.outcome.Failed? || c.outcome.Unverified? || c.outcome.NotRun? ==>
              data.IsDefect(required, BadEvidence(c.id, c.outcome.reason))
    ensures c.outcome.SkippedOptional? && c.id in required ==>
              data.IsDefect(required, SkippedButRequired(c.id, c.outcome.reason))
  {
    var d := match c.outcome
      case SkippedOptional(reason) => if c.id in required then SkippedButRequired(c.id, reason) else MissingReason(c.id)
      case NotApplicable(_) => MissingReason(c.id)
      case Unverified(reason) => BadEvidence(c.id, reason)
      case Failed(reason) => BadEvidence(c.id, reason)
      case NotRun(reason) => BadEvidence(c.id, reason)
      case _ => NoRegisteredPhase;
    assert NamedBy(d) == Some(c.id) && data.IsDefect(required, d);
  }

  /** The characters that trimming removes. */
  lemma {:induction false} WhitespaceExactly(c: char)
    ensures IsWhitespace(c) <==>
            c in {'\U{9}', '\U{A}', '\U{B}', '\U{C}', '\U{D}', '\U{20}', '\U{85}', '\U{A0}', '\U{1680}',
                  '\U{2000}', '\U{2001}', '\U{2002}', '\U{2003}', '\U{2004}', '\U{2005}', '\U{2006}', '\U{2007}',
                  '\U{2008}', '\U{2009}', '\U{200A}', '\U{2028}', '\U{2029}', '\U{202F}', '\U{205F}', '\U{3000}'}
  {
  }
}
