/**
 Cleanup against an honest hierarchical file system: which ledgers one attempt
 empties, and why dropped attempts never stand in the way of a later one.
 */
module Trees {
  import opened Common
  import opened StableSorting
  import opened Ledger

  /** Every existing path, with true for directories. */
  type Tree = map<Path, bool>

  predicate Submap(a: Tree, b: Tree) {
    forall q | q in a :: q in b && a[q] == b[q]
  }

  predicate HasDescendant(t: Tree, d: Path) {
    exists q | q in t :: Below(q, d)
  }

  function Without(t: Tree, d: Path): Tree {
    map q | q in t && q != d && !Below(q, d) :: t[q]
  }

  function HonestStep(t: Tree, call: Call): (Tree, Reply) {
    if call.path !in t then (t, NotFound)
    else match call
      case Stat(path) => (t, Ok(t[path]))
      case DeleteFile(path) => if t[path] then (t, Error(1)) else (t - {path}, Ok(false))
      case DeleteDirectory(path, recursive) =>
        if !t[path] || (!recursive && HasDescendant(t, path)) then (t, Error(2)) else (Without(t, path), Ok(true))
  }

  /** Calls do what they say; a dropped call did any part of its work. */
  ghost predicate Honest(p: Provider<Tree>) {
    && (forall t, call :: p.step(t, call) == HonestStep(t, call))
    && (forall t, call :: Submap(HonestStep(t, call).0, p.abandon(t, call)) && Submap(p.abandon(t, call), t))
  }

  /** What a completed visit of `r` does to the tree, and whether it releases `r`. */
  lemma {:induction false} HonestVisit(p: Provider<Tree>, t: Tree, recursive: bool, r: Resource)
    requires Honest(p)
    ensures var d := Drive(p, t, recursive, r, Inspecting, Forever);
            if r.path in t && t[r.path] && !recursive && HasDescendant(t, r.path)
            then d.phase.Over? && d.phase.verdict.Retained? && d.world == t
            else d.phase == Over(Released) && d.world ==
                 if r.path in t && t[r.path] then Without(t, r.path) else t - {r.path}
  {
    if r.path in t {
      assert p.step(t, Stat(r.path)) == (t, Ok(t[r.path]));
      var call := NextCall(r, recursive, Removing(t[r.path]));
      var after := HonestStep(t, call).0;
      assert p.step(t, call) == HonestStep(t, call);
      assert p.step(after, Stat(r.path)) == HonestStep(after, Stat(r.path));
    } else {
      assert t - {r.path} == t;
      assert p.step(t, Stat(r.path)) == (t, NotFound);
    }
  }

  // ---------- which ledgers are emptied without recursive deletion ----------

  /** Whatever lies below a recorded directory is recorded after it. */
  ghost predicate Drainable(rs: seq<Resource>, t: Tree) {
    forall i, q | 0 <= i < |rs| && rs[i].path in t && t[rs[i].path] && q in t && Below(q, rs[i].path) ::
      RecordedAfter(rs, i, q)
  }

  ghost predicate RecordedAfter(rs: seq<Resource>, i: int, q: Path) {
    exists j :: i < j < |rs| && 0 <= j && rs[j].path == q
  }

  function RecordedPaths(rs: seq<Resource>): set<Path> {
    set r | r in rs :: r.path
  }

  lemma {:induction false} DrainableStep(init: seq<Resource>, r: Resource, t: Tree)
    requires !(r.path in t && t[r.path] && HasDescendant(t, r.path))
    ensures Drainable(init + [r], t) <==> Drainable(init, t - {r.path})
  {
    var rs, t' := init + [r], t - {r.path};
    if Drainable(rs, t) {
      forall i, q | 0 <= i < |init| && init[i].path in t' && t'[init[i].path] && q in t' && Below(q, init[i].path)
        ensures RecordedAfter(init, i, q)
      {
        assert rs[i] == init[i] && RecordedAfter(rs, i, q);
        var j :| i < j < |rs| && rs[j].path == q;
        assert j < |init| && init[j].path == q;
      }
    }
    if Drainable(init, t') {
      forall i, q | 0 <= i < |rs| && rs[i].path in t && t[rs[i].path] && q in t && Below(q, rs[i].path)
        ensures RecordedAfter(rs, i, q)
      {
        assert i < |init| && rs[i] == init[i];
        if q == r.path {
          assert rs[|init|].path == q;
        } else {
          assert RecordedAfter(init, i, q);
          var j :| i < j < |init| && init[j].path == q;
          assert rs[j].path == q;
        }
      }
    }
  }

  lemma {:induction false} BlockedIsNotDrainable(init: seq<Resource>, r: Resource, t: Tree)
    requires r.path in t && t[r.path] && HasDescendant(t, r.path)
    ensures !Drainable(init + [r], t)
  {
    var rs := init + [r];
    var q :| q in t && Below(q, r.path);
    assert rs[|init|] == r && !RecordedAfter(rs, |init|, q);
  }

  lemma {:induction false} FlatVisit(p: Provider<Tree>, t: Tree, init: seq<Resource>, r: Resource)
    requires Honest(p)
    ensures var k := Walk(p, t, false, init + [r], Forever);
            var rest := Walk(p, t - {r.path}, false, init, Forever);
            if r.path in t && t[r.path] && HasDescendant(t, r.path) then k.ledger != []
            else k.ledger == rest.ledger && k.failures == rest.failures && k.world == rest.world
  {
    HonestVisit(p, t, false, r);
    DriveForeverEnds(p, t, false, r, Inspecting);
    if r.path in t && t[r.path] && HasDescendant(t, r.path) {
      WalkLast(p, t, false, init, r, Forever);
    } else {
      assert r.path in t && t[r.path] ==> Without(t, r.path) == t - {r.path};
      WalkReleases(p, t, false, init, r, Forever);
    }
  }

  /**
   Without recursive deletion one attempt empties the ledger exactly when
   whatever lies below a recorded directory was recorded after it; the tree then
   loses the recorded paths and nothing else.
   */
  lemma {:induction false} FlatCleanupExact(p: Provider<Tree>, t: Tree, rs: seq<Resource>)
    requires Honest(p)
    ensures var k := Walk(p, t, false, rs, Forever);
            && (k.ledger == [] <==> Drainable(rs, t))
            && (Drainable(rs, t) ==> k.failures == [] && k.world == t - RecordedPaths(rs))
    decreases |rs|
  {
    if rs == [] {
      assert t - RecordedPaths(rs) == t;
    } else {
      var init, r := rs[..|rs| - 1], rs[|rs| - 1];
      LastSplits(rs);
      FlatVisit(p, t, init, r);
      if r.path in t && t[r.path] && HasDescendant(t, r.path) {
        BlockedIsNotDrainable(init, r, t);
      } else {
        DrainableStep(init, r, t);
        FlatCleanupExact(p, t - {r.path}, init);
        RemoveOneMore(t, init, r);
      }
    }
  }

  lemma {:induction false} RemoveOneMore(t: Tree, init: seq<Resource>, r: Resource)
    ensures t - {r.path} - RecordedPaths(init) == t - RecordedPaths(init + [r])
  {
    assert RecordedPaths(init + [r]) == RecordedPaths(init) + {r.path};
  }

  /** Recording every directory before its contents, and all of its contents, is enough. */
  lemma {:induction false} ParentsFirstDrains(rs: seq<Resource>, t: Tree)
    requires forall i, j | 0 <= i < j < |rs| :: !Below(rs[i].path, rs[j].path)
    requires forall r, q | r in rs && q in t && Below(q, r.path) :: q in RecordedPaths(rs)
    ensures Drainable(rs, t)
  {
    forall i, q | 0 <= i < |rs| && rs[i].path in t && t[rs[i].path] && q in t && Below(q, rs[i].path)
      ensures RecordedAfter(rs, i, q)
    {
      assert rs[i] in rs;
      var r :| r in rs && r.path == q;
      var j :| 0 <= j < |rs| && rs[j] == r;
      assert j != i;
    }
  }

  // ---------- with recursive deletion any recording order works ----------

  predicate Swept(q: Path, rs: seq<Resource>) {
    exists r | r in rs :: q == r.path || Below(q, r.path)
  }

  function Sweep(t: Tree, rs: seq<Resource>): Tree {
    map q | q in t && !Swept(q, rs) :: t[q]
  }

  /** Whatever exists lies in existing directories. */
  ghost predicate WellFormed(t: Tree) {
    forall q, d | q in t && Below(q, d) :: d in t && t[d]
  }

  lemma {:induction false} RecursiveVisit(p: Provider<Tree>, t: Tree, init: seq<Resource>, r: Resource)
    requires Honest(p) && WellFormed(t)
    ensures var k := Walk(p, t, true, init + [r], Forever);
            var rest := Walk(p, Without(t, r.path), true, init, Forever);
            k.ledger == rest.ledger && k.failures == rest.failures && k.world == rest.world
    ensures WellFormed(Without(t, r.path))
  {
    RecursiveRelease(p, t, r);
    WalkReleases(p, t, true, init, r, Forever);
  }

  lemma {:induction false} RecursiveRelease(p: Provider<Tree>, t: Tree, r: Resource)
    requires Honest(p) && WellFormed(t)
    ensures var d := Drive(p, t, true, r, Inspecting, Forever);
            d.phase == Over(Released) && d.world == Without(t, r.path) && d.life == Forever
    ensures WellFormed(Without(t, r.path))
  {
    HonestVisit(p, t, true, r);
    DriveForeverEnds(p, t, true, r, Inspecting);
    assert !(r.path in t && t[r.path]) ==> Without(t, r.path) == t - {r.path};
  }

  lemma {:induction false} SweepOneMore(t: Tree, init: seq<Resource>, r: Resource)
    ensures Sweep(Without(t, r.path), init) == Sweep(t, init + [r])
  {
    forall q ensures Swept(q, init + [r]) <==> Swept(q, init) || q == r.path || Below(q, r.path) {
      assert r in init + [r] && forall s | s in init :: s in init + [r];
    }
  }

  /** With recursive deletion one attempt empties every ledger and removes what lies at or below a recorded path. */
  lemma {:induction false} RecursiveCleanupEmpties(p: Provider<Tree>, t: Tree, rs: seq<Resource>)
    requires Honest(p) && WellFormed(t)
    ensures var k := Walk(p, t, true, rs, Forever);
            k.ledger == [] && k.failures == [] && k.world == Sweep(t, rs)
    decreases |rs|
  {
    if rs == [] {
      assert t == Sweep(t, rs);
    } else {
      var init, r := rs[..|rs| - 1], rs[|rs| - 1];
      LastSplits(rs);
      RecursiveVisit(p, t, init, r);
      SweepOneMore(t, init, r);
      RecursiveCleanupEmpties(p, Without(t, r.path), init);
    }
  }

  // ---------- dropped attempts ----------

  ghost predicate Clearable(recursive: bool, rs: seq<Resource>, t: Tree) {
    recursive || Drainable(rs, t)
  }

  lemma {:induction false} DrainableShrinks(rs: seq<Resource>, t: Tree, smaller: Tree)
    requires Drainable(rs, t) && Submap(smaller, t)
    ensures Drainable(rs, smaller)
  {
  }

  /** A dropped visit took at most the visited path, or what recursive deletion takes, from the tree. */
  lemma {:induction false} DroppedVisit(p: Provider<Tree>, t: Tree, recursive: bool, r: Resource, phase: Phase,
                                        life: Lifetime)
    requires Honest(p)
    ensures Submap(Drive(p, t, recursive, r, phase, life).world, t)
    decreases CallsLeft(phase)
  {
    if !phase.Over? {
      var call := NextCall(r, recursive, phase);
      assert Submap(p.abandon(t, call), t);
      assert p.step(t, call) == HonestStep(t, call);
      if !life.Spent() {
        var (after, reply) := p.step(t, call);
        DroppedVisit(p, after, recursive, r, Advance(r, phase, reply), life.Tick());
      }
    }
  }

  lemma {:induction false} CompletedVisit(p: Provider<Tree>, t: Tree, recursive: bool, r: Resource, life: Lifetime)
    requires Drive(p, t, recursive, r, Inspecting, life).phase.Over?
    ensures var d := Drive(p, t, recursive, r, Inspecting, life);
            var full := Drive(p, t, recursive, r, Inspecting, Forever);
            d.world == full.world && d.phase == full.phase
  {
    if life.Polls? {
      DriveCut(p, t, recursive, r, Inspecting, life.left);
    }
  }

  /**
   An attempt on an honest file system, dropped anywhere, records no failure,
   leaves only entries a later attempt can clear, and what it released is gone.
   */
  lemma {:induction false} DroppedAttemptLeavesClearable(p: Provider<Tree>, t: Tree, recursive: bool,
                                                         rs: seq<Resource>, life: Lifetime)
    requires Honest(p) && Clearable(recursive, rs, t)
    ensures var k := Walk(p, t, recursive, rs, life);
            && Clearable(recursive, k.ledger, k.world) && k.failures == [] && Submap(k.world, t)
            && (k.finished ==> k.ledger == [])
            && (forall r | r in rs && r !in k.ledger :: r.path !in k.world)
    decreases |rs|
  {
    if rs != [] {
      var init, r := rs[..|rs| - 1], rs[|rs| - 1];
      LastSplits(rs);
      var d := Drive(p, t, recursive, r, Inspecting, life);
      DroppedVisit(p, t, recursive, r, Inspecting, life);
      if d.phase.Over? {
        CompletedVisit(p, t, recursive, r, life);
        VisitKeepsClearable(p, t, recursive, init, r);
        WalkReleases(p, t, recursive, init, r, life);
        DroppedAttemptLeavesClearable(p, d.world, recursive, init, d.life);
        assert forall s | s in init + [r] :: s in init || s == r;
      } else {
        WalkLast(p, t, recursive, init, r, life);
        if !recursive {
          DrainableShrinks(rs, t, d.world);
        }
      }
    }
  }

  lemma {:induction false} VisitKeepsClearable(p: Provider<Tree>, t: Tree, recursive: bool, init: seq<Resource>,
                                               r: Resource)
    requires Honest(p) && Clearable(recursive, init + [r], t)
    ensures var d := Drive(p, t, recursive, r, Inspecting, Forever);
            d.phase == Over(Released) && Clearable(recursive, init, d.world) && r.path !in d.world
  {
    HonestVisit(p, t, recursive, r);
    if !recursive {
      if r.path in t && t[r.path] && HasDescendant(t, r.path) {
        BlockedIsNotDrainable(init, r, t);
        assert false;
      }
      assert r.path in t && t[r.path] ==> Without(t, r.path) == t - {r.path};
      DrainableStep(init, r, t);
    }
  }

  // ---------- what dropped attempts take ----------

  /** What is left once everything recorded was cleaned up. */
  function Target(recursive: bool, t: Tree, rs: seq<Resource>): Tree {
    if recursive then Sweep(t, rs) else t - RecordedPaths(rs)
  }

  /** What a visit of `r` leaves at least. */
  function Least(recursive: bool, t: Tree, r: Resource): Tree {
    if recursive then Without(t, r.path) else t - {r.path}
  }

  /** A dropped call leaves no path without its directories. */
  ghost predicate KeepsWellFormed(p: Provider<Tree>) {
    forall t, call | WellFormed(t) :: WellFormed(p.abandon(t, call))
  }

  lemma {:induction false} StepTakesAtMost(t: Tree, recursive: bool, r: Resource, phase: Phase)
    requires !phase.Over?
    ensures var after := HonestStep(t, NextCall(r, recursive, phase)).0;
            && Submap(Least(recursive, t, r), after) && Submap(after, t)
            && (WellFormed(t) && recursive ==> WellFormed(after))
  {
    var after := HonestStep(t, NextCall(r, recursive, phase)).0;
    assert !HasDescendant(t, r.path) ==> Without(t, r.path) == t - {r.path};
    if WellFormed(t) && recursive {
      assert after == t || (r.path in t && !t[r.path] && after == t - {r.path}) || after == Without(t, r.path);
    }
  }

  /** A visit, finished or dropped, takes nothing but its path, or what recursive deletion takes. */
  lemma {:induction false} VisitTakesAtMost(p: Provider<Tree>, t: Tree, recursive: bool, r: Resource, phase: Phase,
                                            life: Lifetime)
    requires Honest(p)
    ensures var w := Drive(p, t, recursive, r, phase, life).world;
            && Submap(Least(recursive, t, r), w) && Submap(w, t)
            && (recursive && WellFormed(t) && KeepsWellFormed(p) ==> WellFormed(w))
    decreases CallsLeft(phase)
  {
    if !phase.Over? {
      var call := NextCall(r, recursive, phase);
      assert p.step(t, call) == HonestStep(t, call);
      StepTakesAtMost(t, recursive, r, phase);
      if life.Spent() {
        assert Submap(HonestStep(t, call).0, p.abandon(t, call)) && Submap(p.abandon(t, call), t);
      } else {
        var (after, reply) := p.step(t, call);
        VisitTakesAtMost(p, after, recursive, r, Advance(r, phase, reply), life.Tick());
        assert Submap(Least(recursive, t, r), Least(recursive, after, r));
      }
    }
  }

  lemma {:induction false} TargetUnmoved(recursive: bool, t: Tree, w: Tree, init: seq<Resource>, r: Resource)
    requires Submap(Least(recursive, t, r), w) && Submap(w, t)
    ensures Target(recursive, w, init + [r]) == Target(recursive, t, init + [r])
  {
    var rs := init + [r];
    assert rs[|init|] == r && r in rs;
    if !recursive {
      assert r.path in RecordedPaths(rs);
    }
  }

  /** An attempt dropped anywhere leaves exactly as much to clean up as there was. */
  lemma {:induction false} DropsKeepTarget(p: Provider<Tree>, t: Tree, recursive: bool, rs: seq<Resource>,
                                           life: Lifetime)
    requires Honest(p) && Clearable(recursive, rs, t) && (recursive ==> WellFormed(t) && KeepsWellFormed(p))
    ensures var k := Walk(p, t, recursive, rs, life);
            && Target(recursive, k.world, k.ledger) == Target(recursive, t, rs)
            && (recursive ==> WellFormed(k.world))
    decreases |rs|
  {
    if rs != [] {
      var init, r := rs[..|rs| - 1], rs[|rs| - 1];
      LastSplits(rs);
      var d := Drive(p, t, recursive, r, Inspecting, life);
      VisitTakesAtMost(p, t, recursive, r, Inspecting, life);
      if d.phase.Over? {
        CompletedVisit(p, t, recursive, r, life);
        VisitKeepsClearable(p, t, recursive, init, r);
        WalkReleases(p, t, recursive, init, r, life);
        ReleaseMovesTarget(p, t, recursive, init, r);
        DropsKeepTarget(p, d.world, recursive, init, d.life);
      } else {
        WalkLast(p, t, recursive, init, r, life);
        TargetUnmoved(recursive, t, d.world, init, r);
      }
    }
  }

  lemma {:induction false} ReleaseMovesTarget(p: Provider<Tree>, t: Tree, recursive: bool, init: seq<Resource>,
                                              r: Resource)
    requires Honest(p) && Clearable(recursive, init + [r], t) && (recursive ==> WellFormed(t))
    ensures Target(recursive, Drive(p, t, recursive, r, Inspecting, Forever).world, init) ==
            Target(recursive, t, init + [r])
  {
    HonestVisit(p, t, recursive, r);
    if recursive {
      assert !(r.path in t && t[r.path]) ==> Without(t, r.path) == t - {r.path};
      SweepOneMore(t, init, r);
    } else {
      if r.path in t && t[r.path] && HasDescendant(t, r.path) {
        BlockedIsNotDrainable(init, r, t);
        assert false;
      }
      assert r.path in t && t[r.path] ==> Without(t, r.path) == t - {r.path};
      RemoveOneMore(t, init, r);
    }
  }

  /** Any number of dropped attempts, each retrying what the last one left, then one that runs to its end. */
  function Retried(p: Provider<Tree>, t: Tree, recursive: bool, rs: seq<Resource>, drops: seq<nat>): Walked<Tree>
    decreases |drops|
  {
    if drops == [] then Walk(p, t, recursive, rs, Forever)
    else
      var k := Walk(p, t, recursive, rs, Polls(drops[0]));
      Retried(p, k.world, recursive, k.ledger, drops[1..])
  }

  /**
   However often cleanup was dropped and wherever, the attempt that runs to its end
   leaves nothing recorded behind.
   */
  lemma {:induction false} RetriesFinishTheJob(p: Provider<Tree>, t: Tree, recursive: bool, rs: seq<Resource>,
                                               drops: seq<nat>)
    requires Honest(p) && Clearable(recursive, rs, t)
    ensures var k := Retried(p, t, recursive, rs, drops);
            && k.finished && k.ledger == [] && k.failures == [] && Submap(k.world, t)
            && (forall r | r in rs :: r.path !in k.world)
    decreases |drops|
  {
    if drops == [] {
      WalkForeverFinishes(p, t, recursive, rs);
      DroppedAttemptLeavesClearable(p, t, recursive, rs, Forever);
    } else {
      DroppedAttemptLeavesClearable(p, t, recursive, rs, Polls(drops[0]));
      var k := Walk(p, t, recursive, rs, Polls(drops[0]));
      RetriesFinishTheJob(p, k.world, recursive, k.ledger, drops[1..]);
    }
  }

  /**
   And nothing else: dropped attempts and their retries take together exactly what
   one undisturbed attempt takes. With recursive deletion this needs dropped calls to
   leave no path without its directories.
   */
  lemma {:induction false} RetriesTakeNothingElse(p: Provider<Tree>, t: Tree, recursive: bool, rs: seq<Resource>,
                                                  drops: seq<nat>)
    requires Honest(p) && Clearable(recursive, rs, t) && (recursive ==> WellFormed(t) && KeepsWellFormed(p))
    ensures Retried(p, t, recursive, rs, drops).world == Target(recursive, t, rs)
    ensures Retried(p, t, recursive, rs, drops).world == Walk(p, t, recursive, rs, Forever).world
    decreases |drops|
  {
    if recursive {
      RecursiveCleanupEmpties(p, t, rs);
    } else {
      FlatCleanupExact(p, t, rs);
    }
    if drops != [] {
      DropsKeepTarget(p, t, recursive, rs, Polls(drops[0]));
      DroppedAttemptLeavesClearable(p, t, recursive, rs, Polls(drops[0]));
      var k := Walk(p, t, recursive, rs, Polls(drops[0]));
      RetriesTakeNothingElse(p, k.world, recursive, k.ledger, drops[1..]);
    }
  }
}
