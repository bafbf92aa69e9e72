/** When a report lists its checks in the order in which they were completed. */
module Completions {
  import opened Common
  import opened StableSorting
  import opened Reports

  /** Whether a step completes the check `op.id`. */
  predicate Effective(d: ReportData, op: ReportOp) {
    op.Recording? && op.id in d.pending
  }

  /** The checks that a sequence of steps completes, in the order of their completion. */
  function Completions(d: ReportData, ops: seq<ReportOp>): seq<CheckId>
    decreases |ops|
  {
    if ops == [] then []
    else (if Effective(d, ops[0]) then [ops[0].id] else []) + Completions(Apply(d, ops[0]), ops[1..])
  }

  predicate IsFinished(d: ReportData, id: CheckId) {
    id !in d.pending
  }

  /** Of the listed ids, those completed so far. */
  function FinishedIn(d: ReportData, ids: seq<CheckId>): seq<CheckId> {
    Filter(id => IsFinished(d, id), ids)
  }

  /** The completed checks in the order of their registration. */
  function Finished(d: ReportData): seq<CheckId> {
    FinishedIn(d, d.expected)
  }

  /** No check registered after `id` is completed yet. */
  predicate LaterPending(d: ReportData, id: CheckId) {
    forall i, j | 0 <= i < j < |d.expected| && d.expected[i] == id :: d.expected[j] in d.pending
  }

  /** Every completion happens while all checks registered later are still pending. */
  predicate InTurn(d: ReportData, ops: seq<ReportOp>)
    decreases |ops|
  {
    ops == [] ||
    ((Effective(d, ops[0]) ==> LaterPending(d, ops[0].id)) && InTurn(Apply(d, ops[0]), ops[1..]))
  }

  // ---------- one step ----------

  lemma {:induction false} FilterAgrees<T>(keep: T -> bool, other: T -> bool, s: seq<T>)
    requires forall x | x in s :: keep(x) == other(x)
    ensures Filter(keep, s) == Filter(other, s)
  {
    if s != [] {
      FilterAgrees(keep, other, s[1..]);
    }
  }

  lemma {:induction false} FilterNone<T>(keep: T -> bool, s: seq<T>)
    ensures Filter(keep, s) == [] <==> forall x | x in s :: !keep(x)
  {
    if s != [] {
      FilterNone(keep, s[1..]);
      assert s == [s[0]] + s[1..];
    }
  }

  /** A step that completes nothing leaves the completed checks as they are. */
  lemma {:induction false} IdleStep(d: ReportData, op: ReportOp)
    requires d.Valid() && !Effective(d, op)
    ensures Finished(Apply(d, op)) == Finished(d)
  {
    var e := Apply(d, op);
    if !op.Recording? && op.id !in d.expected {
      assert e.expected == d.expected + [op.id] && e.pending == d.pending + [op.id];
      FilterConcat(id => IsFinished(e, id), d.expected, [op.id]);
      FilterNone(id => IsFinished(e, id), [op.id]);
      FilterAgrees(id => IsFinished(e, id), id => IsFinished(d, id), d.expected);
    } else {
      assert e.expected == d.expected;
      FilterAgrees(id => IsFinished(e, id), id => IsFinished(d, id), d.expected);
    }
  }

  /** A completion puts its check between the completed ones registered before and after it. */
  lemma {:induction false} CompletingStep(d: ReportData, op: ReportOp) returns (front: seq<CheckId>, back: seq<CheckId>)
    requires d.Valid() && Effective(d, op)
    ensures d.expected == front + [op.id] + back
    ensures Finished(d) == FinishedIn(d, front) + FinishedIn(d, back)
    ensures Finished(Apply(d, op)) == FinishedIn(d, front) + [op.id] + FinishedIn(d, back)
    ensures LaterPending(d, op.id) <==> FinishedIn(d, back) == []
  {
    front, back := Around(d.expected, op.id);
    SplitFinished(d, front, op.id, back);
    SplitFinished(Apply(d, op), front, op.id, back);
    OthersUnmoved(d, op, front);
    OthersUnmoved(d, op, back);
    assert FinishedIn(d, front) + [] == FinishedIn(d, front);
    LaterPendingIff(d, op.id, front, back);
  }

  lemma {:induction false} Around(ids: seq<CheckId>, id: CheckId) returns (front: seq<CheckId>, back: seq<CheckId>)
    requires Distinct(ids) && id in ids
    ensures ids == front + [id] + back && id !in front && id !in back
  {
    var i :| 0 <= i < |ids| && ids[i] == id;
    front, back := ids[..i], ids[i + 1..];
  }

  lemma {:induction false} OthersUnmoved(d: ReportData, op: ReportOp, ids: seq<CheckId>)
    requires Effective(d, op) && op.id !in ids
    ensures FinishedIn(Apply(d, op), ids) == FinishedIn(d, ids)
  {
    var e := Apply(d, op);
    assert e.pending == Except(d.pending, op.id);
    FilterAgrees(id => IsFinished(e, id), id => IsFinished(d, id), ids);
  }

  lemma {:induction false} LaterPendingIff(d: ReportData, id: CheckId, front: seq<CheckId>, back: seq<CheckId>)
    requires d.expected == front + [id] + back && id !in front && id !in back
    ensures LaterPending(d, id) <==> FinishedIn(d, back) == []
  {
    FilterNone(x => IsFinished(d, x), back);
    var n := |front|;
    assert d.expected[n] == id;
    assert forall k | 0 <= k < n :: d.expected[k] == front[k] && front[k] in front;
    assert forall k | n < k < |d.expected| :: d.expected[k] == back[k - n - 1] && back[k - n - 1] in back;
    if LaterPending(d, id) {
      forall x | x in back ensures !IsFinished(d, x) {
        var k :| 0 <= k < |back| && back[k] == x;
        assert d.expected[n + 1 + k] == x;
      }
    }
    if forall x | x in back :: !IsFinished(d, x) {
      forall i, j | 0 <= i < j < |d.expected| && d.expected[i] == id ensures d.expected[j] in d.pending {
        assert i == n;
        assert d.expected[j] == back[j - n - 1] && back[j - n - 1] in back;
      }
    }
  }

  lemma {:induction false} SplitFinished(d: ReportData, front: seq<CheckId>, id: CheckId, back: seq<CheckId>)
    ensures FinishedIn(d, front + [id] + back) ==
            FinishedIn(d, front) + (if IsFinished(d, id) then [id] else []) + FinishedIn(d, back)
  {
    var keep := x => IsFinished(d, x);
    FilterConcat(keep, front + [id], back);
    FilterConcat(keep, front, [id]);
    FilterCons(keep, id, []);
    assert [id] + [] == [id];
  }

  // ---------- order in the final report ----------

  /** Registered checks keep their places, and a completed check stays completed. */
  lemma {:induction false} FinishedStays(d: ReportData, ops: seq<ReportOp>, id: CheckId)
    requires d.Valid() && id in d.expected && IsFinished(d, id)
    ensures IsFinished(ApplyAll(d, ops), id) && d.expected <= ApplyAll(d, ops).expected
    decreases |ops|
  {
    if ops != [] {
      StepKeepsValid(d, ops[0]);
      FinishedStays(Apply(d, ops[0]), ops[1..], id);
    }
  }

  lemma {:induction false} StepKeepsValid(d: ReportData, op: ReportOp)
    requires d.Valid()
    ensures Apply(d, op).Valid()
  {
    ReportRefinesMap(d, [op]);
    assert ApplyAll(d, [op]) == ApplyAll(Apply(d, op), [op][1..]) == Apply(d, op);
  }

  /** A list without repetitions that has `early` before `late` does not start with `late` and go on with `early`. */
  lemma {:induction false} OneOrder<T>(s: seq<T>, a: seq<T>, early: T, b: seq<T>, c: seq<T>, rest: seq<T>, late: T)
    requires s == a + b == c + ([early] + rest) && early in a && late in b && late in c
    ensures !Pairwise((x, y) => x != y, s)
  {
    var i :| 0 <= i < |a| && a[i] == early;
    var j :| 0 <= j < |b| && b[j] == late;
    var k :| 0 <= k < |c| && c[k] == late;
    assert s[i] == early && s[|c|] == early && s[|a| + j] == late && s[k] == late;
  }

  lemma {:induction false} FinishedIsDistinct(d: ReportData)
    requires Distinct(d.expected)
    ensures Pairwise((x, y) => x != y, Finished(d))
  {
    DistinctFilter(id => IsFinished(d, id), d.expected);
  }

  /** Two completed checks stay listed in the order of their registration. */
  lemma {:induction false} FinishedInOrder(d: ReportData, ops: seq<ReportOp>, front: seq<CheckId>, early: CheckId,
                                           back: seq<CheckId>, late: CheckId)
      returns (a: seq<CheckId>, b: seq<CheckId>)
    requires d.Valid() && d.expected == front + [early] + back && late in back
    requires IsFinished(d, early) && IsFinished(d, late)
    ensures Finished(ApplyAll(d, ops)) == a + b && early in a && late in b
    ensures Pairwise((x, y) => x != y, Finished(ApplyAll(d, ops)))
  {
    assert early in d.expected && late in d.expected;
    FinishedStays(d, ops, early);
    FinishedStays(d, ops, late);
    ReportRefinesMap(d, ops);
    var f := ApplyAll(d, ops);
    var rest := f.expected[|d.expected|..];
    assert f.expected == (front + [early]) + (back + rest);
    FilterConcat(id => IsFinished(f, id), front + [early], back + rest);
    FinishedIsDistinct(f);
    a, b := FinishedIn(f, front + [early]), FinishedIn(f, back + rest);
  }

  /** A check completed after a later one is never listed after everything completed before it. */
  lemma {:induction false} OutOfTurnShows(d: ReportData, op: ReportOp, ops: seq<ReportOp>, later: seq<CheckId>)
    requires d.Valid() && Effective(d, op) && !LaterPending(d, op.id)
    ensures Finished(ApplyAll(Apply(d, op), ops)) != Finished(d) + ([op.id] + later)
  {
    var front, back := CompletingStep(d, op);
    var e, late := Apply(d, op), FinishedIn(d, back)[0];
    assert late in FinishedIn(d, back);
    StepKeepsValid(d, op);
    var a, b := FinishedInOrder(e, ops, front, op.id, back, late);
    if Finished(ApplyAll(e, ops)) == Finished(d) + ([op.id] + later) {
      OneOrder(Finished(ApplyAll(e, ops)), a, op.id, b, Finished(d), later, late);
    }
  }

  /** Any other step adds what it completes at the end. */
  lemma {:induction false} StepInTurn(d: ReportData, op: ReportOp)
    requires d.Valid() && (Effective(d, op) ==> LaterPending(d, op.id))
    ensures Finished(Apply(d, op)) == Finished(d) + if Effective(d, op) then [op.id] else []
  {
    if Effective(d, op) {
      var front, back := CompletingStep(d, op);
      assert FinishedIn(d, front) + [] == FinishedIn(d, front);
      assert FinishedIn(d, front) + [op.id] + [] == FinishedIn(d, front) + [op.id];
    } else {
      IdleStep(d, op);
      assert Finished(d) + [] == Finished(d);
    }
  }

  /**
   The completed checks are listed in the order of their completion exactly when
   every completion happened while all checks registered later were pending.
   */
  lemma {:induction false} ListedAsCompletedIff(d: ReportData, ops: seq<ReportOp>)
    requires d.Valid()
    ensures Finished(ApplyAll(d, ops)) == Finished(d) + Completions(d, ops) <==> InTurn(d, ops)
    decreases |ops|
  {
    if ops == [] {
      assert Finished(d) + [] == Finished(d);
    } else {
      var e, rest := Apply(d, ops[0]), Completions(Apply(d, ops[0]), ops[1..]);
      StepKeepsValid(d, ops[0]);
      ListedAsCompletedIff(e, ops[1..]);
      if Effective(d, ops[0]) && !LaterPending(d, ops[0].id) {
        OutOfTurnShows(d, ops[0], ops[1..], rest);
      } else {
        var made := if Effective(d, ops[0]) then [ops[0].id] else [];
        StepInTurn(d, ops[0]);
        Associates(Finished(d), made, rest);
      }
    }
  }

  lemma {:induction false} NothingFinished(d: ReportData)
    requires d.expected == d.pending
    ensures Finished(d) == []
  {
    FilterNone(id => IsFinished(d, id), d.expected);
  }

  lemma {:induction false} CompletedFromNothingIff(d: ReportData, ops: seq<ReportOp>)
    requires d.Valid() && Finished(d) == []
    ensures Finished(ApplyAll(d, ops)) == Completions(d, ops) <==> InTurn(d, ops)
  {
    ListedAsCompletedIff(d, ops);
    assert [] + Completions(d, ops) == Completions(d, ops);
  }

  /**
   What `checks()` promises, that checks are listed in the order in which their
   outcomes were produced, holds of a report in which nothing was completed before
   exactly when every completion was in turn.
   */
  lemma {:induction false} ChecksAreInCompletionOrderIff(d: ReportData, ops: seq<ReportOp>)
    requires d.Valid() && Ids(d.checks) == d.expected == d.pending && forall op | op in ops :: !op.Expecting?
    ensures var e := ApplyAll(d, ops);
            FinishedIn(e, Ids(e.checks)) == Completions(d, ops) <==> InTurn(d, ops)
  {
    ChecksStayInRegistrationOrder(d, ops);
    NothingFinished(d);
    CompletedFromNothingIff(d, ops);
  }

  // ---------- phases that run to their end ----------

  function Recordings(order: seq<CheckId>, outcome: CheckId -> Outcome): seq<ReportOp> {
    if order == [] then []
    else [Recording(order[0], None, outcome(order[0]), true)] + Recordings(order[1..], outcome)
  }

  /** Pending checks recorded once each are completed in the order of recording, and nothing else is. */
  lemma {:induction false} RecordingsComplete(d: ReportData, order: seq<CheckId>, outcome: CheckId -> Outcome)
    requires Distinct(order) && forall id | id in order :: id in d.pending
    ensures var ops := Recordings(order, outcome);
            && Completions(d, ops) == order && (forall op | op in ops :: op.Recording?)
            && ApplyAll(d, ops).expected == d.expected
            && forall id :: id in ApplyAll(d, ops).pending <==> id in d.pending && id !in order
    decreases |order|
  {
    if order != [] {
      var op := Recording(order[0], None, outcome(order[0]), true);
      var ops := Recordings(order, outcome);
      assert ops[0] == op && ops[1..] == Recordings(order[1..], outcome);
      assert order == [order[0]] + order[1..] && order[0] !in order[1..];
      assert Apply(d, op).pending == Except(d.pending, order[0]);
      RecordingsComplete(Apply(d, op), order[1..], outcome);
    }
  }

  lemma {:induction false} RecordingTakesEffect(d: ReportData, done: Check)
    requires done.id in d.pending
    ensures var e := Apply(d, Recording(done.id, done.capability, done.outcome, true));
            && e.violations == d.violations && e.pending == Except(d.pending, done.id)
            && forall c | c in e.checks :: c == done || (c in d.checks && c.id != done.id)
  {
    assert d.violations + [] == d.violations;
    CompletedKeepsIds(d.checks, done);
  }

  /** Every check then has the outcome recorded for it, or the one it had, and nothing is complained about. */
  lemma {:induction false} RecordingsTakeEffect(d: ReportData, order: seq<CheckId>, outcome: CheckId -> Outcome)
    requires Distinct(order) && forall id | id in order :: id in d.pending
    ensures var e := ApplyAll(d, Recordings(order, outcome));
            && e.violations == d.violations
            && forall c | c in e.checks :: (c in d.checks && c.id !in order) || c.outcome == outcome(c.id)
    decreases |order|
  {
    if order != [] {
      var op := Recording(order[0], None, outcome(order[0]), true);
      var done := Check(order[0], None, outcome(order[0]));
      assert Recordings(order, outcome)[0] == op && Recordings(order, outcome)[1..] == Recordings(order[1..], outcome);
      assert order == [order[0]] + order[1..] && order[0] !in order[1..];
      RecordingTakesEffect(d, done);
      RecordingsTakeEffect(Apply(d, op), order[1..], outcome);
    }
  }

  /**
   A phase registered in one order and run to its end in another: its checks are
   listed in the order of their completion exactly when the two orders are equal.
   */
  lemma {:induction false} WholePhaseInOrderIff(d: ReportData, order: seq<CheckId>, outcome: CheckId -> Outcome)
    requires d.Valid() && Ids(d.checks) == d.expected == d.pending
    requires Distinct(order) && forall id :: id in order <==> id in d.pending
    ensures var ops := Recordings(order, outcome);
            && Ids(ApplyAll(d, ops).checks) == d.expected && Completions(d, ops) == order
            && (d.expected == order <==> InTurn(d, ops))
  {
    var ops := Recordings(order, outcome);
    RecordingsComplete(d, order, outcome);
    ChecksStayInRegistrationOrder(d, ops);
    ChecksAreInCompletionOrderIff(d, ops);
    FilterEverything(id => IsFinished(ApplyAll(d, ops), id), d.expected);
  }

  lemma {:induction false} FilterEverything<T>(keep: T -> bool, s: seq<T>)
    requires forall x | x in s :: keep(x)
    ensures Filter(keep, s) == s
  {
    if s != [] {
      FilterEverything(keep, s[1..]);
      assert s == [s[0]] + s[1..];
    }
  }

  // ---------- the list phase ----------

  const BASIC := CheckId("list/basic")
  const LITERAL := CheckId("list/literal-prefix")
  const NAMESPACE := CheckId("list/namespace")
  const RAW_ROOT := CheckId("list/raw-root-prefix")
  const PAGINATION := CheckId("list/pagination")
  const PREFIX := CheckId("list/prefix")

  /** The catalog's order, in which a phase is registered. */
  const LIST_CATALOG: seq<CheckId> := [BASIC, LITERAL, NAMESPACE, RAW_ROOT, PAGINATION, PREFIX]

  /** The order in which the phase runs its checks. */
  const LIST_EXECUTION: seq<CheckId> := [BASIC, PREFIX, PAGINATION, LITERAL, NAMESPACE, RAW_ROOT]

  function Registrations(ids: seq<CheckId>): seq<ReportOp> {
    if ids == [] then [] else [Registering(ids[0], None)] + Registrations(ids[1..])
  }

  lemma {:induction false} RegistrationsList(d: ReportData, ids: seq<CheckId>)
    requires d.Valid() && Ids(d.checks) == d.expected == d.pending
    requires Distinct(ids) && forall id | id in ids :: id !in d.expected
    ensures var e := ApplyAll(d, Registrations(ids));
            e.Valid() && Ids(e.checks) == e.expected == e.pending == d.expected + ids
    decreases |ids|
  {
    if ids == [] {
      assert d.expected + [] == d.expected;
    } else {
      var op := Registering(ids[0], None);
      assert ids == [ids[0]] + ids[1..] && ids[0] !in ids[1..];
      assert Registrations(ids)[0] == op && Registrations(ids)[1..] == Registrations(ids[1..]);
      StepKeepsValid(d, op);
      IdsAfterAppend(d.checks, Check(ids[0], None, NotRun("check not yet executed")));
      RegistrationsList(Apply(d, op), ids[1..]);
      Associates(d.expected, [ids[0]], ids[1..]);
    }
  }

  /**
   A phase in which every outcome is acceptable satisfies its requirements, and lists its
   checks in the order of their completion exactly when it ran in catalog order.
   */
  lemma {:induction false} SatisfiedPhase(ids: seq<CheckId>, order: seq<CheckId>, outcome: CheckId -> Outcome)
    requires ids != [] && Distinct(ids) && Distinct(order) && forall id :: id in order <==> id in ids
    requires forall id :: Acceptable(outcome(id), false)
    ensures var d := ApplyAll(EMPTY_REPORT, Registrations(ids));
            var ops := Recordings(order, outcome);
            && ApplyAll(d, ops).RequirementsSatisfiedWith([])
            && Ids(ApplyAll(d, ops).checks) == ids && Completions(d, ops) == order
            && (ids == order <==> InTurn(d, ops))
  {
    var d := ApplyAll(EMPTY_REPORT, Registrations(ids));
    RegistrationsList(EMPTY_REPORT, ids);
    RegistrationsAreClean(EMPTY_REPORT, ids);
    assert [] + ids == ids;
    WholePhaseInOrderIff(d, order, outcome);
    AcceptableSatisfies(d, order, outcome);
  }

  lemma {:induction false} AcceptableSatisfies(d: ReportData, order: seq<CheckId>, outcome: CheckId -> Outcome)
    requires d.Valid() && d.violations == [] && d.expected == d.pending && d.expected != []
    requires Distinct(order) && forall id :: id in order <==> id in d.pending
    requires forall id :: Acceptable(outcome(id), false)
    ensures ApplyAll(d, Recordings(order, outcome)).RequirementsSatisfiedWith([])
  {
    RecordingsComplete(d, order, outcome);
    RecordingsTakeEffect(d, order, outcome);
    StaysValid(d, Recordings(order, outcome));
    SomeMember(ApplyAll(d, Recordings(order, outcome)).pending);
    AllAcceptable(ApplyAll(d, Recordings(order, outcome)));
  }

  lemma {:induction false} StaysValid(d: ReportData, ops: seq<ReportOp>)
    requires d.Valid()
    ensures ApplyAll(d, ops).Valid()
  {
    ReportRefinesMap(d, ops);
  }

  lemma {:induction false} AllAcceptable(e: ReportData)
    requires e.Valid() && e.violations == [] && e.expected != [] && e.pending == []
    requires forall c | c in e.checks :: c.id !in e.expected || Acceptable(c.outcome, false)
    ensures e.RequirementsSatisfiedWith([])
  {
  }

  lemma {:induction false} SomeMember<T>(s: seq<T>)
    ensures s != [] ==> exists x :: x in s
  {
    if s != [] {
      assert s[0] in s;
    }
  }

  lemma {:induction false} RegistrationsAreClean(d: ReportData, ids: seq<CheckId>)
    requires Distinct(ids) && forall id | id in ids :: id !in d.expected
    ensures ApplyAll(d, Registrations(ids)).violations == d.violations
    decreases |ids|
  {
    if ids != [] {
      var op := Registering(ids[0], None);
      assert Registrations(ids)[0] == op && Registrations(ids)[1..] == Registrations(ids[1..]);
      assert ids == [ids[0]] + ids[1..] && ids[0] !in ids[1..];
      RegistrationsAreClean(Apply(d, op), ids[1..]);
    }
  }

  /** A satisfied list phase does not list its checks in the order of their completion. */
  lemma {:induction false} ListPhaseIsOutOfOrder(outcome: CheckId -> Outcome)
    requires forall id :: Acceptable(outcome(id), false)
    ensures var d := ApplyAll(EMPTY_REPORT, Registrations(LIST_CATALOG));
            var ops := Recordings(LIST_EXECUTION, outcome);
            && ApplyAll(d, ops).RequirementsSatisfiedWith([])
            && Ids(ApplyAll(d, ops).checks) == LIST_CATALOG && Completions(d, ops) == LIST_EXECUTION
            && LIST_CATALOG != LIST_EXECUTION && !InTurn(d, ops)
  {
    SamePhase();
    SatisfiedPhase(LIST_CATALOG, LIST_EXECUTION, outcome);
  }

  lemma {:induction false} SamePhase()
    ensures Distinct(LIST_CATALOG) && Distinct(LIST_EXECUTION)
    ensures forall id :: id in LIST_EXECUTION <==> id in LIST_CATALOG
    ensures LIST_CATALOG != LIST_EXECUTION && LIST_CATALOG != []
  {
    assert BASIC.name[5] == 'b' && LITERAL.name[5] == 'l' && NAMESPACE.name[5] == 'n' && RAW_ROOT.name[5] == 'r';
    assert LIST_CATALOG[1] == LITERAL && LIST_EXECUTION[1] == PREFIX;
    assert |PREFIX.name| != |PAGINATION.name|;
  }
}
