/**
 What the calls and answers of a cleanup attempt say by themselves: which call may
 follow which answer, what each visit concludes, and what the attempt leaves.
 */
module Audits {
  import opened Common
  import opened StableSorting
  import opened Ledger

  function LastOf(v: seq<Event>): Event
    requires v != []
  {
    v[|v| - 1]
  }

  /**
   The calls of one visit: a stat; after it reported a kind, the deletion for that
   kind; after a deletion was accepted, a second stat; and nothing after any other
   answer or a dropped call.
   */
  predicate IsVisit(r: Resource, recursive: bool, v: seq<Event>) {
    && 1 <= |v| <= 3 && v[0].call == Stat(r.path)
    && (|v| > 1 ==>
          && v[0].Answered? && v[0].reply.Ok?
          && v[1].call == if v[0].reply.directoryLike then DeleteDirectory(r.path, recursive) else DeleteFile(r.path))
    && (|v| > 2 ==> v[1].Answered? && v[1].reply.Ok? && v[2].call == Stat(r.path))
  }

  /** The visit came to its end: after the second stat, or after any answer but success. */
  predicate Settled(v: seq<Event>)
    requires v != []
  {
    LastOf(v).Answered? && (|v| == 3 || !LastOf(v).reply.Ok?)
  }

  /** The last answer reported the path missing. */
  predicate Gone(v: seq<Event>)
    requires v != []
  {
    LastOf(v).Answered? && LastOf(v).reply.NotFound?
  }

  /** The failure of a visit that ended with its path not missing, read off its last answer. */
  predicate IsFaultOf(failure: ContractFailure, r: Resource, v: seq<Event>)
    requires v != []
  {
    && failure.check == None && failure.cause.CleanupFault? && LastOf(v).Answered?
    && var fault, reply := failure.cause.fault, LastOf(v).reply;
       && fault.owner == r.owner && fault.path == r.path
       && fault.operation == (if |v| == 1 then "stat" else "delete")
       && (reply.Panic? ==> fault.cause == ProviderPanic(reply.payload))
       && (reply.Error? && |v| < 3 ==> fault.cause == FacadeError(reply.code))
       && (reply.Error? && |v| == 3 ==> fault.cause == Unconfirmed(reply.code))
       && (reply.Ok? ==> fault.cause == StillExists)
  }

  /**
   An attempt visits the ledger from its end. A settled visit releases its entry if
   the path is gone, and otherwise keeps it and adds one failure; an unsettled one is
   the last, ends in a dropped call, and leaves the rest of the ledger as it was.
   */
  ghost predicate Accounts(recursive: bool, rs: seq<Resource>, visits: seq<seq<Event>>,
                           failures: seq<ContractFailure>, ledger: seq<Resource>, finished: bool)
    decreases |rs|
  {
    if rs == [] then visits == [] && failures == [] && ledger == [] && finished
    else
      var init, r := rs[..|rs| - 1], rs[|rs| - 1];
      && visits != [] && IsVisit(r, recursive, visits[0])
      && if !Settled(visits[0]) then
           visits[1..] == [] && LastOf(visits[0]).Abandoned? && failures == [] && ledger == rs && !finished
         else if Gone(visits[0]) then Accounts(recursive, init, visits[1..], failures, ledger, finished)
         else
           && failures != [] && IsFaultOf(failures[0], r, visits[0])
           && ledger != [] && ledger[|ledger| - 1] == r
           && Accounts(recursive, init, visits[1..], failures[1..], ledger[..|ledger| - 1], finished)
  }

  function Joined(visits: seq<seq<Event>>): seq<Event> {
    if visits == [] then [] else visits[0] + Joined(visits[1..])
  }

  /** The events are an attempt over `rs` with this result. */
  ghost predicate Audited(recursive: bool, rs: seq<Resource>, events: seq<Event>,
                          failures: seq<ContractFailure>, ledger: seq<Resource>, finished: bool) {
    exists visits :: Joined(visits) == events && Accounts(recursive, rs, visits, failures, ledger, finished)
  }

  /** The answers are those the provider gives, call after call. */
  ghost predicate ToldBy<W>(p: Provider<W>, w: W, events: seq<Event>, after: W)
    decreases |events|
  {
    if events == [] then after == w
    else match events[0]
      case Answered(call, reply) => p.step(w, call).1 == reply && ToldBy(p, p.step(w, call).0, events[1..], after)
      case Abandoned(call) => events[1..] == [] && after == p.abandon(w, call)
  }

  // ---------- one visit ----------

  /** The rest of a visit after `done`. */
  ghost predicate GoesOn<W>(p: Provider<W>, w: W, recursive: bool, r: Resource, phase: Phase, life: Lifetime,
                            done: seq<Event>) {
    var d := Drive(p, w, recursive, r, phase, life);
    var v := done + d.events;
    && IsVisit(r, recursive, v) && (d.phase.Over? <==> Settled(v)) && (!d.phase.Over? ==> LastOf(v).Abandoned?)
    && (d.phase.Over? ==> (d.phase.verdict.Released? <==> Gone(v)))
    && (d.phase.Over? && d.phase.verdict.Retained? ==>
          IsFaultOf(ContractFailure(None, CleanupFault(d.phase.verdict.failure)), r, v))
    && ToldBy(p, w, d.events, d.world)
  }

  lemma {:induction false} StepsOn<W>(p: Provider<W>, w: W, recursive: bool, r: Resource, phase: Phase, life: Lifetime,
                                      done: seq<Event>)
    requires !phase.Over? && !life.Spent()
    requires var (after, reply) := p.step(w, NextCall(r, recursive, phase));
             GoesOn(p, after, recursive, r, Advance(r, phase, reply), life.Tick(),
                    done + [Answered(NextCall(r, recursive, phase), reply)])
    ensures GoesOn(p, w, recursive, r, phase, life, done)
  {
    var call := NextCall(r, recursive, phase);
    var (after, reply) := p.step(w, call);
    var rest := Drive(p, after, recursive, r, Advance(r, phase, reply), life.Tick());
    Associates(done, [Answered(call, reply)], rest.events);
    var events := [Answered(call, reply)] + rest.events;
    assert events[1..] == rest.events && events[0] == Answered(call, reply);
  }

  lemma {:induction false} EndsHere<W>(p: Provider<W>, w: W, recursive: bool, r: Resource, verdict: Verdict,
                                       life: Lifetime, done: seq<Event>)
    requires done != [] && IsVisit(r, recursive, done) && Settled(done) && (verdict.Released? <==> Gone(done))
    requires verdict.Retained? ==> IsFaultOf(ContractFailure(None, CleanupFault(verdict.failure)), r, done)
    ensures GoesOn(p, w, recursive, r, Over(verdict), life, done)
  {
    assert done + [] == done;
  }

  lemma {:induction false} DropsHere<W>(p: Provider<W>, w: W, recursive: bool, r: Resource, phase: Phase,
                                        life: Lifetime, done: seq<Event>)
    requires !phase.Over? && life.Spent() && IsVisit(r, recursive, done + [Abandoned(NextCall(r, recursive, phase))])
    ensures GoesOn(p, w, recursive, r, phase, life, done)
  {
    var v := done + [Abandoned(NextCall(r, recursive, phase))];
    assert LastOf(v) == Abandoned(NextCall(r, recursive, phase));
  }

  lemma {:induction false} VerifyingGoesOn<W>(p: Provider<W>, w: W, recursive: bool, r: Resource, life: Lifetime,
                                              done: seq<Event>)
    requires |done| == 2 && IsVisit(r, recursive, done) && done[1].Answered? && done[1].reply.Ok?
    ensures GoesOn(p, w, recursive, r, Verifying, life, done)
  {
    if life.Spent() {
      DropsHere(p, w, recursive, r, Verifying, life, done);
    } else {
      var (after, reply) := p.step(w, Stat(r.path));
      var next := Advance(r, Verifying, reply);
      EndsHere(p, after, recursive, r, next.verdict, life.Tick(), done + [Answered(Stat(r.path), reply)]);
      StepsOn(p, w, recursive, r, Verifying, life, done);
    }
  }

  lemma {:induction false} RemovingGoesOn<W>(p: Provider<W>, w: W, recursive: bool, r: Resource, directory: bool,
                                             life: Lifetime, done: seq<Event>)
    requires done == [Answered(Stat(r.path), Ok(directory))]
    ensures GoesOn(p, w, recursive, r, Removing(directory), life, done)
  {
    if life.Spent() {
      DropsHere(p, w, recursive, r, Removing(directory), life, done);
    } else {
      var call := NextCall(r, recursive, Removing(directory));
      var (after, reply) := p.step(w, call);
      var next, more := Advance(r, Removing(directory), reply), done + [Answered(call, reply)];
      if reply.Ok? {
        VerifyingGoesOn(p, after, recursive, r, life.Tick(), more);
      } else {
        EndsHere(p, after, recursive, r, next.verdict, life.Tick(), more);
      }
      StepsOn(p, w, recursive, r, Removing(directory), life, done);
    }
  }

  /** Every visit, finished or dropped, whatever the provider answers. */
  lemma {:induction false} VisitGoesOn<W>(p: Provider<W>, w: W, recursive: bool, r: Resource, life: Lifetime)
    ensures GoesOn(p, w, recursive, r, Inspecting, life, [])
  {
    if life.Spent() {
      DropsHere(p, w, recursive, r, Inspecting, life, []);
    } else {
      var (after, reply) := p.step(w, Stat(r.path));
      var next, more := Advance(r, Inspecting, reply), [] + [Answered(Stat(r.path), reply)];
      if reply.Ok? {
        RemovingGoesOn(p, after, recursive, r, reply.directoryLike, life.Tick(), more);
      } else {
        EndsHere(p, after, recursive, r, next.verdict, life.Tick(), more);
      }
      StepsOn(p, w, recursive, r, Inspecting, life, []);
    }
  }

  // ---------- whole attempts ----------

  lemma {:induction false} ToldOn<W>(p: Provider<W>, w: W, a: seq<Event>, mid: W, b: seq<Event>, after: W)
    requires ToldBy(p, w, a, mid) && (a != [] ==> LastOf(a).Answered?) && ToldBy(p, mid, b, after)
    ensures ToldBy(p, w, a + b, after)
    decreases |a|
  {
    if a == [] {
      assert a + b == b;
    } else {
      assert (a + b)[1..] == a[1..] + b && (a + b)[0] == a[0];
      ToldOn(p, p.step(w, a[0].call).0, a[1..], mid, b, after);
    }
  }

  /**
   Every attempt, finished or dropped, against every provider: its calls and answers
   account for what it recorded and what it left, and the answers are the provider's.
   */
  lemma {:induction false} AttemptIsAudited<W>(p: Provider<W>, w: W, recursive: bool, rs: seq<Resource>, life: Lifetime)
      returns (visits: seq<seq<Event>>)
    ensures var k := Walk(p, w, recursive, rs, life);
            && Joined(visits) == k.events && Accounts(recursive, rs, visits, k.failures, k.ledger, k.finished)
            && ToldBy(p, w, k.events, k.world)
    decreases |rs|
  {
    if rs == [] {
      visits := [];
    } else {
      var init, r := rs[..|rs| - 1], rs[|rs| - 1];
      LastSplits(rs);
      WalkLast(p, w, recursive, init, r, life);
      VisitGoesOn(p, w, recursive, r, life);
      var d := Drive(p, w, recursive, r, Inspecting, life);
      assert [] + d.events == d.events;
      if d.phase.Over? {
        var rest := Walk(p, d.world, recursive, init, d.life);
        var later := AttemptIsAudited(p, d.world, recursive, init, d.life);
        ToldOn(p, w, d.events, d.world, rest.events, rest.world);
        visits := [d.events] + later;
        VisitAccounts(recursive, init, r, d, later, rest);
      } else {
        visits := [d.events];
        DroppedAccounts(recursive, rs, d.events);
      }
    }
  }

  lemma {:induction false} VisitAccounts<W>(recursive: bool, init: seq<Resource>, r: Resource, d: Driven<W>,
                                            later: seq<seq<Event>>, rest: Walked<W>)
    requires d.phase.Over? && IsVisit(r, recursive, d.events) && Settled(d.events)
    requires d.phase.verdict.Released? <==> Gone(d.events)
    requires d.phase.verdict.Retained? ==>
               IsFaultOf(ContractFailure(None, CleanupFault(d.phase.verdict.failure)), r, d.events)
    requires Accounts(recursive, init, later, rest.failures, rest.ledger, rest.finished)
    ensures Joined([d.events] + later) == d.events + Joined(later)
    ensures var k := Absorb(d, r, rest);
            Accounts(recursive, init + [r], [d.events] + later, k.failures, k.ledger, k.finished)
  {
    var k, rs, visits := Absorb(d, r, rest), init + [r], [d.events] + later;
    assert rs[..|rs| - 1] == init && rs[|rs| - 1] == r && visits[0] == d.events && visits[1..] == later;
    if d.phase.verdict.Released? {
      assert k.failures == rest.failures && k.ledger == rest.ledger;
    } else {
      assert k.failures[1..] == rest.failures && k.ledger[..|k.ledger| - 1] == rest.ledger;
    }
  }

  lemma {:induction false} DroppedAccounts(recursive: bool, rs: seq<Resource>, v: seq<Event>)
    requires rs != [] && IsVisit(rs[|rs| - 1], recursive, v) && !Settled(v) && LastOf(v).Abandoned?
    ensures Joined([v]) == v && Accounts(recursive, rs, [v], [], rs, false)
  {
    assert [v][1..] == [] && Joined([v]) == v + Joined([v][1..]);
  }

  // ---------- single calls ----------

  /** Every deletion directly follows a stat of its path that reported the kind it deletes. */
  predicate DeletesAreInformed(recursive: bool, events: seq<Event>) {
    forall i | 0 <= i < |events| :: IsInformed(recursive, events, i)
  }

  predicate IsInformed(recursive: bool, events: seq<Event>, i: int)
    requires 0 <= i < |events|
  {
    var call := events[i].call;
    && (call.DeleteFile? ==> i > 0 && events[i - 1] == Answered(Stat(call.path), Ok(false)))
    && (call.DeleteDirectory? ==>
          i > 0 && call.recursive == recursive && events[i - 1] == Answered(Stat(call.path), Ok(true)))
  }

  lemma {:induction false} AuditedDeletesAreInformed(recursive: bool, rs: seq<Resource>, visits: seq<seq<Event>>,
                                                     failures: seq<ContractFailure>, ledger: seq<Resource>,
                                                     finished: bool)
    requires Accounts(recursive, rs, visits, failures, ledger, finished)
    ensures DeletesAreInformed(recursive, Joined(visits))
    decreases |rs|
  {
    if rs != [] {
      var init, v, rest := rs[..|rs| - 1], visits[0], Joined(visits[1..]);
      if Settled(v) {
        if Gone(v) {
          AuditedDeletesAreInformed(recursive, init, visits[1..], failures, ledger, finished);
        } else {
          AuditedDeletesAreInformed(recursive, init, visits[1..], failures[1..], ledger[..|ledger| - 1], finished);
        }
      }
      InformedConcat(recursive, v, rest);
    }
  }

  lemma {:induction false} InformedConcat(recursive: bool, a: seq<Event>, b: seq<Event>)
    requires DeletesAreInformed(recursive, a) && DeletesAreInformed(recursive, b)
    ensures DeletesAreInformed(recursive, a + b)
  {
    var all := a + b;
    forall i | 0 <= i < |all| ensures IsInformed(recursive, all, i) {
      if i < |a| {
        assert IsInformed(recursive, a, i);
        assert all[i] == a[i] && (i > 0 ==> all[i - 1] == a[i - 1]);
      } else {
        assert IsInformed(recursive, b, i - |a|);
        assert all[i] == b[i - |a|] && (i > |a| ==> all[i - 1] == b[i - |a| - 1]);
      }
    }
  }
}
