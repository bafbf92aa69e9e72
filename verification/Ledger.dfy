/**
 What one cleanup attempt does to the ledger of tracked resources, whatever the
 provider answers, and where an attempt stands when its future is dropped.
 */
module Ledger {
  import opened Common
  import opened StableSorting

  datatype Call =
    | Stat(path: Path)
    | DeleteFile(path: Path)
    | DeleteDirectory(path: Path, recursive: bool)

  /** `Ok` carries the kind reported by a stat; a deletion's own outcome is not looked at. */
  datatype Reply = Ok(directoryLike: bool) | NotFound | Error(code: int) | Panic(payload: int)

  datatype Event = Answered(call: Call, reply: Reply) | Abandoned(call: Call)

  /**
   An adversarial provider: it answers from a state of its own choosing, and
   moves to any state when a pending call is dropped.
   */
  datatype Provider<!W> = Provider(step: (W, Call) -> (W, Reply), abandon: (W, Call) -> W)

  datatype Resource = Resource(path: Path, owner: string, index: nat)

  datatype Verdict = Released | Retained(failure: CleanupFailure)

  // ---------- one resource: stat, delete, verify ----------

  datatype Phase = Inspecting | Removing(directory: bool) | Verifying | Over(verdict: Verdict)

  function NextCall(r: Resource, recursive: bool, phase: Phase): Call
    requires !phase.Over?
  {
    match phase
    case Removing(true) => DeleteDirectory(r.path, recursive)
    case Removing(false) => DeleteFile(r.path)
    case _ => Stat(r.path)
  }

  /** Why a reply other than the wanted one keeps the resource in the ledger. */
  function Complaint(r: Resource, phase: Phase, reply: Reply): CleanupFailure
    requires !phase.Over? && !reply.NotFound?
  {
    var operation := if phase.Inspecting? then "stat" else "delete";
    var cause := match reply
      case Panic(payload) => ProviderPanic(payload)
      case Error(code) => if phase.Verifying? then Unconfirmed(code) else FacadeError(code)
      case _ => StillExists;
    CleanupFailure(r.owner, operation, r.path, cause)
  }

  function Advance(r: Resource, phase: Phase, reply: Reply): Phase
    requires !phase.Over?
  {
    if reply.NotFound? then Over(Released)
    else if reply.Ok? && phase.Inspecting? then Removing(reply.directoryLike)
    else if reply.Ok? && phase.Removing? then Verifying
    else Over(Retained(Complaint(r, phase, reply)))
  }

  function CallsLeft(phase: Phase): nat {
    match phase
    case Inspecting => 3
    case Removing(_) => 2
    case Verifying => 1
    case Over(_) => 0
  }

  datatype Driven<W> = Driven(world: W, life: Lifetime, events: seq<Event>, phase: Phase)

  function Drive<W>(p: Provider<W>, w: W, recursive: bool, r: Resource, phase: Phase, life: Lifetime): Driven<W>
    decreases CallsLeft(phase)
  {
    if phase.Over? then Driven(w, life, [], phase)
    else
      var call := NextCall(r, recursive, phase);
      if life.Spent() then Driven(p.abandon(w, call), life, [Abandoned(call)], phase)
      else
        var (after, reply) := p.step(w, call);
        var rest := Drive(p, after, recursive, r, Advance(r, phase, reply), life.Tick());
        rest.(events := [Answered(call, reply)] + rest.events)
  }

  // ---------- the whole ledger, last resource first ----------

  datatype Walked<W> = Walked(world: W, life: Lifetime, events: seq<Event>,
                              failures: seq<ContractFailure>, ledger: seq<Resource>, finished: bool)

  function Failures(verdict: Verdict): seq<ContractFailure> {
    match verdict
    case Released => []
    case Retained(failure) => [ContractFailure(None, CleanupFault(failure))]
  }

  function Kept(r: Resource, verdict: Verdict): seq<Resource> {
    if verdict.Retained? then [r] else []
  }

  /** Visits `rs` from its end; the ledger of an unfinished walk still lists everything unvisited. */
  function Walk<W>(p: Provider<W>, w: W, recursive: bool, rs: seq<Resource>, life: Lifetime): Walked<W>
    decreases |rs|
  {
    if rs == [] then Walked(w, life, [], [], [], true)
    else
      var last := |rs| - 1;
      var d := Drive(p, w, recursive, rs[last], Inspecting, life);
      if !d.phase.Over? then Walked(d.world, d.life, d.events, [], rs, false)
      else
        Absorb(d, rs[last], Walk(p, d.world, recursive, rs[..last], d.life))
  }

  /** The visit `d` of `r`, followed by the walk of what precedes `r`. */
  function Absorb<W>(d: Driven<W>, r: Resource, rest: Walked<W>): Walked<W>
    requires d.phase.Over?
  {
    Walked(rest.world, rest.life, d.events + rest.events, Failures(d.phase.verdict) + rest.failures,
           rest.ledger + Kept(r, d.phase.verdict), rest.finished)
  }

  lemma {:induction false} WalkLast<W>(p: Provider<W>, w: W, recursive: bool, rs: seq<Resource>, r: Resource,
                                       life: Lifetime)
    ensures var d := Drive(p, w, recursive, r, Inspecting, life);
            Walk(p, w, recursive, rs + [r], life) ==
            if d.phase.Over? then Absorb(d, r, Walk(p, d.world, recursive, rs, d.life))
            else Walked(d.world, d.life, d.events, [], rs + [r], false)
  {
    assert (rs + [r])[..|rs|] == rs;
  }

  lemma {:induction false} WalkReleases<W>(p: Provider<W>, w: W, recursive: bool, rs: seq<Resource>, r: Resource,
                                           life: Lifetime)
    requires Drive(p, w, recursive, r, Inspecting, life).phase == Over(Released)
    ensures var d := Drive(p, w, recursive, r, Inspecting, life);
            var k := Walk(p, w, recursive, rs + [r], life);
            var rest := Walk(p, d.world, recursive, rs, d.life);
            && k.ledger == rest.ledger && k.failures == rest.failures
            && k.world == rest.world && k.finished == rest.finished
  {
    WalkLast(p, w, recursive, rs, r, life);
    var d := Drive(p, w, recursive, r, Inspecting, life);
    var rest := Walk(p, d.world, recursive, rs, d.life);
    assert rest.ledger + [] == rest.ledger && [] + rest.failures == rest.failures;
  }

  /** What is known after `first` once the walk goes on with `rest`. */
  function Join<W>(first: Walked<W>, rest: Walked<W>): Walked<W> {
    Walked(rest.world, rest.life, first.events + rest.events, first.failures + rest.failures,
           rest.ledger + first.ledger, rest.finished)
  }

  lemma {:induction false} AbsorbJoin<W>(d: Driven<W>, r: Resource, first: Walked<W>, rest: Walked<W>)
    requires d.phase.Over?
    ensures Absorb(d, r, Join(first, rest)) == Join(Absorb(d, r, first), rest)
  {
    assert d.events + (first.events + rest.events) == (d.events + first.events) + rest.events;
    var f := Failures(d.phase.verdict);
    assert f + (first.failures + rest.failures) == (f + first.failures) + rest.failures;
    var kept := Kept(r, d.phase.verdict);
    assert (rest.ledger + first.ledger) + kept == rest.ledger + (first.ledger + kept);
  }

  /** A walk is the walk of its later part, followed by the walk of its earlier part if it gets there. */
  lemma {:induction false} WalkSplits<W>(p: Provider<W>, w: W, recursive: bool,
                                         front: seq<Resource>, back: seq<Resource>, life: Lifetime)
    ensures var later := Walk(p, w, recursive, back, life);
            Walk(p, w, recursive, front + back, life) ==
            if later.finished then Join(later, Walk(p, later.world, recursive, front, later.life))
            else later.(ledger := front + later.ledger)
    decreases |back|
  {
    if back == [] {
      assert front + back == front;
      var k := Walk(p, w, recursive, front, life);
      assert [] + k.events == k.events && [] + k.failures == k.failures && k.ledger + [] == k.ledger;
    } else {
      var init, r := back[..|back| - 1], back[|back| - 1];
      var d := Drive(p, w, recursive, r, Inspecting, life);
      LastSplits(back);
      Associates(front, init, [r]);
      WalkLast(p, w, recursive, init, r, life);
      WalkLast(p, w, recursive, front + init, r, life);
      if d.phase.Over? {
        WalkSplits(p, d.world, recursive, front, init, d.life);
        var later := Walk(p, d.world, recursive, init, d.life);
        if later.finished {
          AbsorbJoin(d, r, later, Walk(p, later.world, recursive, front, later.life));
        } else {
          var kept := Kept(r, d.phase.verdict);
          Associates(front, later.ledger, kept);
        }
      }
    }
  }

  lemma {:induction false} DriveForeverEnds<W>(p: Provider<W>, w: W, recursive: bool, r: Resource, phase: Phase)
    ensures var d := Drive(p, w, recursive, r, phase, Forever); d.phase.Over? && d.life == Forever
    decreases CallsLeft(phase)
  {
    if !phase.Over? {
      var (after, reply) := p.step(w, NextCall(r, recursive, phase));
      DriveForeverEnds(p, after, recursive, r, Advance(r, phase, reply));
    }
  }

  lemma {:induction false} WalkForeverFinishes<W>(p: Provider<W>, w: W, recursive: bool, rs: seq<Resource>)
    ensures var k := Walk(p, w, recursive, rs, Forever); k.finished && k.life == Forever
    decreases |rs|
  {
    if rs != [] {
      var n := |rs| - 1;
      DriveForeverEnds(p, w, recursive, rs[n], Inspecting);
      WalkForeverFinishes(p, Drive(p, w, recursive, rs[n], Inspecting, Forever).world, recursive, rs[..n]);
    }
  }

  // ---------- cancellation ----------

  lemma {:induction false} DriveCut<W>(p: Provider<W>, w: W, recursive: bool, r: Resource, phase: Phase, polls: nat)
    ensures var full := Drive(p, w, recursive, r, phase, Forever);
            var cut := Drive(p, w, recursive, r, phase, Polls(polls));
            if |full.events| <= polls then cut == full.(life := Polls(polls - |full.events|))
            else !cut.phase.Over? && cut.events == full.events[..polls] + [Abandoned(full.events[polls].call)]
    decreases CallsLeft(phase)
  {
    if !phase.Over? && polls > 0 {
      var call := NextCall(r, recursive, phase);
      var (after, reply) := p.step(w, call);
      DriveCut(p, after, recursive, r, Advance(r, phase, reply), polls - 1);
      var rest := Drive(p, after, recursive, r, Advance(r, phase, reply), Forever).events;
      if polls <= |rest| {
        ConsTake(Answered(call, reply), rest, polls);
      }
    }
  }

  lemma {:induction false} ConsTake(e: Event, rest: seq<Event>, polls: nat)
    requires 0 < polls <= |rest|
    ensures forall more: seq<Event> ::
              ([e] + rest)[..polls] + more == [e] + (rest[..polls - 1] + more)
  {
    assert ([e] + rest)[..polls] == [e] + rest[..polls - 1];
  }

  /**
   How the attempt `cut`, dropped after `polls` answers, relates to the attempt
   `full` over the same ledger, when `settled` is the full attempt over the part
   of the ledger after `open`: either nothing was cut, or the drop happened while
   visiting the last entry of `open`.
   */
  ghost predicate IsCut<W>(full: Walked<W>, cut: Walked<W>, settled: Walked<W>, open: seq<Resource>, polls: nat) {
    if |full.events| <= polls then cut == full.(life := Polls(polls - |full.events|))
    else
      && !cut.finished && open != []
      && cut.events == full.events[..polls] + [Abandoned(full.events[polls].call)]
      && full.events[polls].call.path == open[|open| - 1].path
      && cut.ledger == open + settled.ledger && cut.failures == settled.failures
  }

  ghost predicate CutAfter<W>(p: Provider<W>, w: W, recursive: bool,
                              open: seq<Resource>, done: seq<Resource>, polls: nat) {
    IsCut(Walk(p, w, recursive, open + done, Forever), Walk(p, w, recursive, open + done, Polls(polls)),
          Walk(p, w, recursive, done, Forever), open, polls)
  }

  /**
   Dropping an attempt after `polls` answers: it is the full attempt if that made
   no more calls, and otherwise it issued exactly the first calls of the full
   attempt, left a prefix of the ledger untouched, and settled the rest as the
   full attempt settles it.
   */
  lemma {:induction false} CutIsPrefixOfFull<W>(p: Provider<W>, w: W, recursive: bool, rs: seq<Resource>, polls: nat)
      returns (open: seq<Resource>, done: seq<Resource>)
    ensures rs == open + done
    ensures CutAfter(p, w, recursive, open, done, polls)
    decreases |rs|
  {
    if rs == [] {
      open, done := [], [];
      NothingToCut(p, w, recursive, polls);
    } else {
      var init, r := rs[..|rs| - 1], rs[|rs| - 1];
      LastSplits(rs);
      var made := |Drive(p, w, recursive, r, Inspecting, Forever).events|;
      if polls < made {
        open, done := rs, [];
        CutInLast(p, w, recursive, init, r, polls);
      } else {
        var after := Drive(p, w, recursive, r, Inspecting, Forever).world;
        open, done := CutIsPrefixOfFull(p, after, recursive, init, polls - made);
        CutExtends(p, w, recursive, open, done, r, polls);
        done := done + [r];
      }
    }
  }

  lemma {:induction false} NothingToCut<W>(p: Provider<W>, w: W, recursive: bool, polls: nat)
    ensures CutAfter(p, w, recursive, [], [], polls)
  {
    var none: seq<Resource> := [];
    assert none + none == none;
  }

  lemma {:induction false} AbsorbCut<W>(d: Driven<W>, r: Resource, full: Walked<W>, cut: Walked<W>, settled: Walked<W>,
                     open: seq<Resource>, polls: nat)
    requires d.phase.Over? && |d.events| <= polls && IsCut(full, cut, settled, open, polls - |d.events|)
    ensures IsCut(Absorb(d, r, full), Absorb(d, r, cut), Absorb(d, r, settled), open, polls)
  {
    if |d.events| + |full.events| > polls {
      assert (d.events + full.events)[..polls] == d.events + full.events[..polls - |d.events|];
      var kept := Kept(r, d.phase.verdict);
      assert (open + settled.ledger) + kept == open + (settled.ledger + kept);
    }
  }

  lemma {:induction false} CutExtends<W>(p: Provider<W>, w: W, recursive: bool,
                      open: seq<Resource>, done: seq<Resource>, r: Resource, polls: nat)
    requires var d := Drive(p, w, recursive, r, Inspecting, Forever);
             |d.events| <= polls && CutAfter(p, d.world, recursive, open, done, polls - |d.events|)
    ensures CutAfter(p, w, recursive, open, done + [r], polls)
    ensures open + (done + [r]) == (open + done) + [r]
  {
    var d := Drive(p, w, recursive, r, Inspecting, Forever);
    DriveForeverEnds(p, w, recursive, r, Inspecting);
    DriveCut(p, w, recursive, r, Inspecting, polls);
    assert open + (done + [r]) == (open + done) + [r];
    WalkLast(p, w, recursive, open + done, r, Forever);
    WalkLast(p, w, recursive, open + done, r, Polls(polls));
    WalkLast(p, w, recursive, done, r, Forever);
    AbsorbCut(d, r, Walk(p, d.world, recursive, open + done, Forever),
              Walk(p, d.world, recursive, open + done, Polls(polls - |d.events|)),
              Walk(p, d.world, recursive, done, Forever), open, polls);
  }

  lemma {:induction false} CutInLast<W>(p: Provider<W>, w: W, recursive: bool, rs: seq<Resource>, r: Resource,
                                        polls: nat)
    requires polls < |Drive(p, w, recursive, r, Inspecting, Forever).events|
    ensures CutAfter(p, w, recursive, rs + [r], [], polls)
    ensures rs + [r] + [] == rs + [r]
  {
    var d := Drive(p, w, recursive, r, Inspecting, Forever);
    DriveForeverEnds(p, w, recursive, r, Inspecting);
    DriveCut(p, w, recursive, r, Inspecting, polls);
    DriveCallsItsPath(p, w, recursive, r, Inspecting, Forever);
    assert rs + [r] + [] == rs + [r];
    WalkLast(p, w, recursive, rs, r, Forever);
    WalkLast(p, w, recursive, rs, r, Polls(polls));
    var tail := Walk(p, d.world, recursive, rs, Forever);
    assert (d.events + tail.events)[..polls] == d.events[..polls];
    assert (d.events + tail.events)[polls] == d.events[polls] && d.events[polls] in d.events;
  }

  lemma {:induction false} DriveCallsItsPath<W>(p: Provider<W>, w: W, recursive: bool, r: Resource, phase: Phase,
                                                life: Lifetime)
    ensures forall e | e in Drive(p, w, recursive, r, phase, life).events :: e.call.path == r.path
    decreases CallsLeft(phase)
  {
    if !phase.Over? && !life.Spent() {
      var (after, reply) := p.step(w, NextCall(r, recursive, phase));
      DriveCallsItsPath(p, after, recursive, r, Advance(r, phase, reply), life.Tick());
    }
  }

  // ---------- what leaves the ledger ----------

  ghost predicate SeenMissing(events: seq<Event>, path: Path) {
    exists e | e in events :: e.Answered? && e.call.path == path && e.reply.NotFound?
  }

  lemma {:induction false} ReleaseObserved<W>(p: Provider<W>, w: W, recursive: bool, r: Resource, phase: Phase,
                                              life: Lifetime)
    requires phase != Over(Released)
    ensures var d := Drive(p, w, recursive, r, phase, life);
            d.phase == Over(Released) <==> SeenMissing(d.events, r.path)
    decreases CallsLeft(phase)
  {
    if !phase.Over? && !life.Spent() {
      var call := NextCall(r, recursive, phase);
      var (after, reply) := p.step(w, call);
      var next := Advance(r, phase, reply);
      var d := Drive(p, w, recursive, r, phase, life);
      var rest := Drive(p, after, recursive, r, next, life.Tick());
      assert d.events[0] == Answered(call, reply);
      if next == Over(Released) {
        assert d.events[0] in d.events;
      } else {
        ReleaseObserved(p, after, recursive, r, next, life.Tick());
        assert forall e | e in d.events :: e == d.events[0] || e in rest.events;
        assert forall e | e in rest.events :: e in d.events;
      }
    }
  }

  lemma {:induction false} SeenMissingGrows(before: seq<Event>, after: seq<Event>, path: Path)
    ensures SeenMissing(before, path) || SeenMissing(after, path) ==> SeenMissing(before + after, path)
  {
    if SeenMissing(before, path) {
      var e :| e in before && e.Answered? && e.call.path == path && e.reply.NotFound?;
      assert e in before + after;
    }
    if SeenMissing(after, path) {
      var e :| e in after && e.Answered? && e.call.path == path && e.reply.NotFound?;
      assert e in before + after;
    }
  }

  lemma {:induction false} LedgerOnlyShrinks<W>(p: Provider<W>, w: W, recursive: bool, rs: seq<Resource>,
                                                life: Lifetime)
    ensures forall r | r in Walk(p, w, recursive, rs, life).ledger :: r in rs
    decreases |rs|
  {
    if rs != [] {
      var n := |rs| - 1;
      var d := Drive(p, w, recursive, rs[n], Inspecting, life);
      if d.phase.Over? {
        LedgerOnlyShrinks(p, d.world, recursive, rs[..n], d.life);
      }
    }
  }

  /**
   Nothing is lost: whatever left the ledger was reported missing by the
   provider during this very attempt, finished or dropped.
   */
  lemma {:induction false} OnlyMissingResourcesLeave<W>(p: Provider<W>, w: W, recursive: bool, rs: seq<Resource>,
                                                        life: Lifetime, r: Resource)
    requires r in rs && r !in Walk(p, w, recursive, rs, life).ledger
    ensures SeenMissing(Walk(p, w, recursive, rs, life).events, r.path)
    decreases |rs|
  {
    var init, last := rs[..|rs| - 1], rs[|rs| - 1];
    assert rs == init + [last];
    WalkLast(p, w, recursive, init, last, life);
    var d := Drive(p, w, recursive, last, Inspecting, life);
    ReleaseObserved(p, w, recursive, last, Inspecting, life);
    if d.phase.Over? {
      var rest := Walk(p, d.world, recursive, init, d.life);
      SeenMissingGrows(d.events, rest.events, r.path);
      if r in init {
        OnlyMissingResourcesLeave(p, d.world, recursive, init, d.life, r);
      }
    }
  }

  /** How many answers reported a missing path. */
  function Missing(events: seq<Event>): nat {
    if events == [] then 0
    else (if events[0].Answered? && events[0].reply.NotFound? then 1 else 0) + Missing(events[1..])
  }

  lemma {:induction false} MissingConcat(a: seq<Event>, b: seq<Event>)
    ensures Missing(a + b) == Missing(a) + Missing(b)
  {
    if a == [] {
      assert a + b == b;
    } else {
      assert (a + b)[1..] == a[1..] + b;
      MissingConcat(a[1..], b);
    }
  }

  lemma {:induction false} MissingOnce<W>(p: Provider<W>, w: W, recursive: bool, r: Resource, phase: Phase,
                                          life: Lifetime)
    requires phase != Over(Released)
    ensures var d := Drive(p, w, recursive, r, phase, life);
            Missing(d.events) == if d.phase == Over(Released) then 1 else 0
    decreases CallsLeft(phase)
  {
    if !phase.Over? && !life.Spent() {
      var call := NextCall(r, recursive, phase);
      var (after, reply) := p.step(w, call);
      var next := Advance(r, phase, reply);
      var rest := Drive(p, after, recursive, r, next, life.Tick());
      assert ([Answered(call, reply)] + rest.events)[1..] == rest.events;
      if next != Over(Released) {
        MissingOnce(p, after, recursive, r, next, life.Tick());
      }
    }
  }

  /**
   Every resource of an attempt, finished or dropped, is either still in the ledger or
   answers for one missing path.
   */
  lemma {:induction false} ReleasesAddUp<W>(p: Provider<W>, w: W, recursive: bool, rs: seq<Resource>, life: Lifetime)
    ensures var k := Walk(p, w, recursive, rs, life); |rs| == |k.ledger| + Missing(k.events)
    decreases |rs|
  {
    if rs != [] {
      var init, r := rs[..|rs| - 1], rs[|rs| - 1];
      var d := Drive(p, w, recursive, r, Inspecting, life);
      LastSplits(rs);
      WalkLast(p, w, recursive, init, r, life);
      MissingOnce(p, w, recursive, r, Inspecting, life);
      if d.phase.Over? {
        ReleasesAddUp(p, d.world, recursive, init, d.life);
        MissingConcat(d.events, Walk(p, d.world, recursive, init, d.life).events);
      }
    }
  }

  /** The resources a failure list complains about, in order. */
  function Blamed(failures: seq<ContractFailure>): seq<Path> {
    if failures == [] then []
    else (if failures[0].cause.CleanupFault? then [failures[0].cause.fault.path] else []) + Blamed(failures[1..])
  }

  function Paths(rs: seq<Resource>): seq<Path> {
    if rs == [] then [] else [rs[0].path] + Paths(rs[1..])
  }

  lemma {:induction false} PathsConcat(a: seq<Resource>, b: seq<Resource>)
    ensures Paths(a + b) == Paths(a) + Paths(b)
  {
    if a == [] {
      assert a + b == b;
    } else {
      assert (a + b)[1..] == a[1..] + b;
      PathsConcat(a[1..], b);
    }
  }

  lemma {:induction false} ComplaintNamesResource<W>(p: Provider<W>, w: W, recursive: bool, r: Resource,
                                                     phase: Phase, life: Lifetime)
    requires phase.Over? && phase.verdict.Retained? ==> phase.verdict.failure.path == r.path
    ensures var d := Drive(p, w, recursive, r, phase, life);
            d.phase.Over? && d.phase.verdict.Retained? ==> d.phase.verdict.failure.path == r.path
    decreases CallsLeft(phase)
  {
    if !phase.Over? && !life.Spent() {
      var (after, reply) := p.step(w, NextCall(r, recursive, phase));
      ComplaintNamesResource(p, after, recursive, r, Advance(r, phase, reply), life.Tick());
    }
  }

  /** A finished attempt complains exactly once about each resource it keeps, last resource first. */
  lemma {:induction false} OneComplaintPerKeptResource<W>(p: Provider<W>, w: W, recursive: bool, rs: seq<Resource>,
                                                          life: Lifetime)
    requires Walk(p, w, recursive, rs, life).finished
    ensures var k := Walk(p, w, recursive, rs, life);
            Blamed(k.failures) == Reverse(Paths(k.ledger)) && |k.failures| == |k.ledger|
    decreases |rs|
  {
    if rs != [] {
      var n := |rs| - 1;
      var d := Drive(p, w, recursive, rs[n], Inspecting, life);
      ComplaintNamesResource(p, w, recursive, rs[n], Inspecting, life);
      OneComplaintPerKeptResource(p, d.world, recursive, rs[..n], d.life);
      var rest := Walk(p, d.world, recursive, rs[..n], d.life);
      PathsConcat(rest.ledger, Kept(rs[n], d.phase.verdict));
      ReverseConcat(Paths(rest.ledger), Paths(Kept(rs[n], d.phase.verdict)));
      if d.phase.verdict.Retained? {
        var one := Failures(d.phase.verdict);
        assert (one + rest.failures)[1..] == rest.failures;
        assert Paths([rs[n]]) == [rs[n].path];
        assert Reverse([rs[n].path]) == [rs[n].path];
      } else {
        assert [] + rest.failures == rest.failures && rest.ledger + [] == rest.ledger;
      }
    }
  }

  /** Any relation that held between all earlier and later entries still does. */
  lemma {:induction false} WalkKeepsOrder<W>(p: Provider<W>, w: W, recursive: bool, rs: seq<Resource>, life: Lifetime,
                                             rel: (Resource, Resource) -> bool)
    requires Pairwise(rel, rs)
    ensures Pairwise(rel, Walk(p, w, recursive, rs, life).ledger)
    decreases |rs|
  {
    if rs != [] {
      var n := |rs| - 1;
      var d := Drive(p, w, recursive, rs[n], Inspecting, life);
      if d.phase.Over? {
        WalkKeepsOrder(p, d.world, recursive, rs[..n], d.life, rel);
        LedgerOnlyShrinks(p, d.world, recursive, rs[..n], d.life);
        var rest := Walk(p, d.world, recursive, rs[..n], d.life);
        forall r | r in rest.ledger ensures rel(r, rs[n]) {
          var i :| 0 <= i < n && rs[i] == r;
        }
      }
    }
  }

  /** The verdict reached on entry `i`, given what was done to the entries after it. */
  function Fate<W>(p: Provider<W>, w: W, recursive: bool, rs: seq<Resource>, i: nat): Phase
    requires i < |rs|
  {
    Drive(p, Walk(p, w, recursive, rs[i + 1..], Forever).world, recursive, rs[i], Inspecting, Forever).phase
  }

  function KeptFrom<W>(p: Provider<W>, w: W, recursive: bool, rs: seq<Resource>, i: nat): seq<Resource>
    requires i <= |rs|
    decreases |rs| - i
  {
    if i == |rs| then []
    else (if Fate(p, w, recursive, rs, i) == Over(Released) then [] else [rs[i]]) + KeptFrom(p, w, recursive, rs, i + 1)
  }

  /** A full attempt leaves the original ledger filtered to its unreleased entries, in the original order. */
  lemma {:induction false} LedgerIsFiltered<W>(p: Provider<W>, w: W, recursive: bool, rs: seq<Resource>, i: nat)
    requires i <= |rs|
    ensures Walk(p, w, recursive, rs[i..], Forever).ledger == KeptFrom(p, w, recursive, rs, i)
    decreases |rs| - i
  {
    if i < |rs| {
      LedgerIsFiltered(p, w, recursive, rs, i + 1);
      var r, rest := rs[i], rs[i + 1..];
      assert rs[i..] == [r] + rest;
      FirstFiltered(p, w, recursive, r, rest);
    }
  }

  lemma {:induction false} FirstFiltered<W>(p: Provider<W>, w: W, recursive: bool, r: Resource, rest: seq<Resource>)
    ensures var later := Walk(p, w, recursive, rest, Forever);
            var d := Drive(p, later.world, recursive, r, Inspecting, Forever);
            d.phase.Over? &&
            Walk(p, w, recursive, [r] + rest, Forever).ledger == Kept(r, d.phase.verdict) + later.ledger
  {
    WalkSplits(p, w, recursive, [r], rest, Forever);
    WalkForeverFinishes(p, w, recursive, rest);
    var later := Walk(p, w, recursive, rest, Forever);
    DriveForeverEnds(p, later.world, recursive, r, Inspecting);
    assert [] + [r] == [r];
    WalkLast(p, later.world, recursive, [], r, Forever);
    var d := Drive(p, later.world, recursive, r, Inspecting, Forever);
    assert [] + Kept(r, d.phase.verdict) == Kept(r, d.phase.verdict);
  }

  // ---------- the synchronous ledger order ----------

  predicate ByIndex(a: Resource, b: Resource) {
    a.index <= b.index
  }

  predicate DifferentPaths(a: Resource, b: Resource) {
    a.path != b.path
  }

  /** The order in which the synchronous attempt stores entries it kept in visiting order. */
  function Restore(visited: seq<Resource>): seq<Resource> {
    StableSort(ByIndex, visited)
  }

  ghost predicate Strict(rs: seq<Resource>) {
    StrictlyIncreasing(ByIndex, rs)
  }

  /** Entries appear in creation order, one per path, and indices are distinct until the counter saturates. */
  ghost predicate Ordered(rs: seq<Resource>, counter: nat) {
    && Pairwise(ByIndex, rs)
    && Pairwise(DifferentPaths, rs)
    && (forall r | r in rs :: r.index <= counter)
    && (counter < U64_MAX ==> Strict(rs))
  }

  lemma {:induction false} ByIndexIsPreorder()
    ensures TotalPreorder(ByIndex)
  {
  }

  /** A provider that answers every call with an error. */
  function Broken(): Provider<()> {
    Provider((w, call) => ((), Error(0)), (w, call) => ())
  }

  lemma {:induction false} BrokenKeepsEverything(rs: seq<Resource>, recursive: bool)
    ensures Walk(Broken(), (), recursive, rs, Forever).ledger == rs
  {
    if rs != [] {
      var n := |rs| - 1;
      BrokenKeepsEverything(rs[..n], recursive);
      assert rs == rs[..n] + [rs[n]];
      assert Drive(Broken(), (), recursive, rs[n], Inspecting, Forever).phase.verdict.Retained?;
    }
  }

  /** With distinct indices the synchronous order is the creation order, whatever the provider does. */
  lemma {:induction false} StrictLedgersAgree<W>(p: Provider<W>, w: W, recursive: bool, rs: seq<Resource>)
    requires Strict(rs)
    ensures var k := Walk(p, w, recursive, rs, Forever).ledger; Restore(Reverse(k)) == k && Strict(k)
  {
    WalkKeepsOrder(p, w, recursive, rs, Forever, (a, b) => !ByIndex(b, a));
    SortRestoresReversal(ByIndex, Walk(p, w, recursive, rs, Forever).ledger);
  }

  /** The two drivers leave the same ledger against this provider. */
  ghost predicate Agree(p: Provider<()>, rs: seq<Resource>, recursive: bool) {
    var k := Walk(p, (), recursive, rs, Forever).ledger;
    Restore(Reverse(k)) == k
  }

  /**
   The two drivers leave the same ledger against every provider exactly when no
   two entries share a creation index.
   */
  lemma {:induction false} LedgersAgreeIffStrict(rs: seq<Resource>, recursive: bool)
    requires Pairwise(ByIndex, rs) && Pairwise(DifferentPaths, rs)
    ensures Strict(rs) <==> forall p: Provider<()> :: Agree(p, rs, recursive)
  {
    if Strict(rs) {
      forall p: Provider<()> ensures Agree(p, rs, recursive) {
        StrictLedgersAgree(p, (), recursive, rs);
      }
    }
    if Agree(Broken(), rs, recursive) {
      BrokenKeepsEverything(rs, recursive);
      SurvivingReversalIsStrict(rs);
    }
  }

  lemma {:induction false} SurvivingReversalIsStrict(rs: seq<Resource>)
    requires Pairwise(ByIndex, rs) && Pairwise(DifferentPaths, rs) && Restore(Reverse(rs)) == rs
    ensures Strict(rs)
  {
    ByIndexIsPreorder();
    assert forall i, j | 0 <= i < j < |rs| :: DifferentPaths(rs[i], rs[j]);
    RestoredReversalHasNoTies(ByIndex, rs);
  }

  /** Whatever the indices, the synchronous attempt keeps the same entries and stores them by index. */
  lemma {:induction false} RestoreIsSortedPermutation(kept: seq<Resource>)
    ensures multiset(Restore(Reverse(kept))) == multiset(kept) && Pairwise(ByIndex, Restore(Reverse(kept)))
  {
    ByIndexIsPreorder();
    StableSortSorts(ByIndex, Reverse(kept));
    ReversePermutes(kept);
  }

  /** Entries that share an index change their order with every blocking attempt that keeps them. */
  lemma {:induction false} SharedIndicesAreReversed(kept: seq<Resource>, r: Resource)
    ensures Ties(ByIndex, r, Restore(Reverse(kept))) == Reverse(Ties(ByIndex, r, kept))
  {
    ByIndexIsPreorder();
    TiesReversed(ByIndex, kept, r);
  }

  /** Two entries with one index, kept by a blocking attempt against a broken provider, have changed places. */
  lemma {:induction false} SaturatedLedgerIsSwapped(a: Resource, b: Resource, recursive: bool)
    requires a.index == b.index == U64_MAX && a.path != b.path
    ensures var kept := Walk(Broken(), (), recursive, [a, b], Forever).ledger;
            kept == [a, b] && Restore(Reverse(kept)) == [b, a]
  {
    BrokenKeepsEverything([a, b], recursive);
    assert Reverse([a, b]) == [b, a];
    assert [b, a][1..] == [a] && [a][1..] == [];
    assert StableSort(ByIndex, [a]) == [a];
  }

  lemma {:induction false} ReversePermutes<T>(s: seq<T>)
    ensures multiset(Reverse(s)) == multiset(s)
  {
    if s != [] {
      ReversePermutes(s[1..]);
      assert s == [s[0]] + s[1..];
    }
  }

  /** Sorting by index keeps an ordered ledger ordered. */
  lemma {:induction false} RestoreKeepsOrdered(rs: seq<Resource>, counter: nat)
    requires Ordered(rs, counter)
    ensures Ordered(Restore(Reverse(rs)), counter)
  {
    RestoreIsSortedPermutation(rs);
    SameElements(Restore(Reverse(rs)), rs);
    assert Pairwise(DifferentPaths, Reverse(rs));
    SymmetricSort(ByIndex, DifferentPaths, Reverse(rs));
    if counter < U64_MAX {
      SortRestoresReversal(ByIndex, rs);
    }
  }

  /** An attempt, finished or dropped, keeps an ordered ledger ordered. */
  lemma {:induction false} AttemptKeepsOrdered<W>(p: Provider<W>, w: W, recursive: bool, rs: seq<Resource>,
                                                  life: Lifetime, counter: nat)
    requires Ordered(rs, counter)
    ensures Ordered(Walk(p, w, recursive, rs, life).ledger, counter)
  {
    WalkKeepsOrder(p, w, recursive, rs, life, ByIndex);
    WalkKeepsOrder(p, w, recursive, rs, life, DifferentPaths);
    LedgerOnlyShrinks(p, w, recursive, rs, life);
    if counter < U64_MAX {
      WalkKeepsOrder(p, w, recursive, rs, life, (a, b) => !ByIndex(b, a));
    }
  }
}
