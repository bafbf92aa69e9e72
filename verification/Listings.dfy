/**
 The listing checks: expectations fixed by independent preparation, and a
 bounded comparison with a stream that may never end.
 */
module Listings {
  import opened Common
  import opened StableSorting
  import opened Reports

  // ---------- text order ----------

  predicate TextLeq(a: string, b: string) {
    if a == [] then true
    else if b == [] then false
    else if a[0] == b[0] then TextLeq(a[1..], b[1..])
    else a[0] < b[0]
  }

  lemma {:induction false} TextReflexive(a: string)
    ensures TextLeq(a, a)
  {
    if a != [] {
      TextReflexive(a[1..]);
    }
  }

  lemma {:induction false} TextTotal(a: string, b: string)
    ensures TextLeq(a, b) || TextLeq(b, a)
  {
    if a != [] && b != [] && a[0] == b[0] {
      TextTotal(a[1..], b[1..]);
    }
  }

  lemma {:induction false} TextTransitive(a: string, b: string, c: string)
    requires TextLeq(a, b) && TextLeq(b, c)
    ensures TextLeq(a, c)
  {
    if a != [] && a[0] == b[0] == c[0] {
      TextTransitive(a[1..], b[1..], c[1..]);
    }
  }

  lemma {:induction false} TextAntisymmetric(a: string, b: string)
    requires TextLeq(a, b) && TextLeq(b, a)
    ensures a == b
  {
    if a != [] {
      TextAntisymmetric(a[1..], b[1..]);
      assert a == [a[0]] + a[1..] && b == [b[0]] + b[1..];
    }
  }

  lemma {:induction false} TextOrder()
    ensures TotalPreorder(TextLeq)
    ensures forall a, b :: TextLeq(a, b) && TextLeq(b, a) ==> a == b
    ensures forall a :: TextLeq(a, a)
  {
    forall a, b ensures TextLeq(a, b) || TextLeq(b, a) { TextTotal(a, b); }
    forall a, b, c | TextLeq(a, b) && TextLeq(b, c) ensures TextLeq(a, c) { TextTransitive(a, b, c); }
    forall a, b | TextLeq(a, b) && TextLeq(b, a) ensures a == b { TextAntisymmetric(a, b); }
    forall a ensures TextLeq(a, a) { TextReflexive(a); }
  }

  /** Sorted equality is equality as multisets. */
  lemma {:induction false} SortedEquality(a: seq<string>, b: seq<string>)
    ensures StableSort(TextLeq, a) == StableSort(TextLeq, b) <==> multiset(a) == multiset(b)
  {
    TextOrder();
    StableSortSorts(TextLeq, a);
    StableSortSorts(TextLeq, b);
    if multiset(a) == multiset(b) {
      SortedListsUnique(TextLeq, StableSort(TextLeq, a), StableSort(TextLeq, b));
    }
  }

  // ---------- the stream ----------

  datatype StreamItem = Entry(path: string, metadata: bool) | End | StreamError(code: int)

  /** The answers to successive `next_entry` calls; nothing says they ever end. */
  type Stream = nat -> StreamItem

  function PathsOf(stream: Stream, n: nat): (paths: seq<string>)
    requires forall i | 0 <= i < n :: stream(i).Entry?
    ensures |paths| == n
  {
    if n == 0 then [] else PathsOf(stream, n - 1) + [stream(n - 1).path]
  }

  lemma {:induction false} PathsInOrder(stream: Stream, n: nat)
    requires forall i | 0 <= i < n :: stream(i).Entry?
    ensures forall i | 0 <= i < n :: PathsOf(stream, n)[i] == stream(i).path
  {
    if n > 0 {
      PathsInOrder(stream, n - 1);
    }
  }

  ghost predicate Supplies(stream: Stream, n: nat, metadata: bool) {
    forall i | 0 <= i < n :: stream(i).Entry? && (metadata ==> stream(i).metadata)
  }

  /** The stream ends without error having produced exactly the expected entries, in any order. */
  ghost predicate Exactly(stream: Stream, expected: seq<string>, metadata: bool) {
    && Supplies(stream, |expected|, metadata) && stream(|expected|).End?
    && multiset(PathsOf(stream, |expected|)) == multiset(expected)
  }

  /**
   Reads the stream, giving up at the first missing metadata, error or
   surplus entry, then compares sorted paths. Passing is exactness, and at most
   one entry more than expected is ever requested.
   */
  method CompareStream(expected: seq<string>, metadata: bool, stream: Stream) returns (passed: bool, consumed: nat)
    ensures passed <==> Exactly(stream, expected, metadata)
    ensures consumed <= |expected| + 1
  {
    var actual: seq<string> := [];
    consumed := 0;
    while true
      invariant consumed == |actual| <= |expected|
      invariant Supplies(stream, consumed, metadata) && actual == PathsOf(stream, consumed)
      decreases |expected| - consumed
    {
      var item := stream(consumed);
      consumed := consumed + 1;
      match item {
        case StreamError(_) => return false, consumed;
        case End => break;
        case Entry(path, present) =>
          if metadata && !present {
            return false, consumed;
          }
          actual := actual + [path];
          if |actual| > |expected| {
            return false, consumed;
          }
      }
    }
    SortedEquality(actual, expected);
    EndedStream(stream, |actual|, expected, metadata);
    passed := StableSort(TextLeq, actual) == StableSort(TextLeq, expected);
  }

  lemma {:induction false} EndedStream(stream: Stream, n: nat, expected: seq<string>, metadata: bool)
    requires n <= |expected| && Supplies(stream, n, metadata) && stream(n).End?
    ensures Exactly(stream, expected, metadata) <==> multiset(PathsOf(stream, n)) == multiset(expected)
  {
    if multiset(PathsOf(stream, n)) == multiset(expected) {
      SameElements(PathsOf(stream, n), expected);
    }
  }

  // ---------- preparation ----------

  datatype SeedStep = SeedDirectory(name: string) | SeedFile(name: string)

  /** The paths prepared until a preparation is unsupported or fails. */
  function PreparedPaths(steps: seq<SeedStep>, seed: SeedStep -> SeedReply<string>): (paths: seq<string>)
    ensures |paths| <= |steps|
  {
    if steps == [] || !seed(steps[0]).Seeded? then []
    else [seed(steps[0]).path] + PreparedPaths(steps[1..], seed)
  }

  /** Preparation goes through the steps in order, and stops at the first that publishes nothing. */
  lemma {:induction false} PreparedInOrder(steps: seq<SeedStep>, seed: SeedStep -> SeedReply<string>)
    ensures var paths := PreparedPaths(steps, seed);
            && (forall i | 0 <= i < |paths| :: seed(steps[i]) == Seeded(paths[i]))
            && (|paths| < |steps| ==> !seed(steps[|paths|]).Seeded?)
  {
    if steps != [] && seed(steps[0]).Seeded? {
      PreparedInOrder(steps[1..], seed);
    }
  }

  /** The prepared paths a listing must show. */
  function ChosenPaths(steps: seq<SeedStep>, seed: SeedStep -> SeedReply<string>, chosen: SeedStep -> bool)
    : seq<string>
  {
    if steps == [] || !seed(steps[0]).Seeded? then []
    else (if chosen(steps[0]) then [seed(steps[0]).path] else []) + ChosenPaths(steps[1..], seed, chosen)
  }

  /** Prepares entries in order; whatever was prepared is tracked, on every exit. */
  method PrepareAll(steps: seq<SeedStep>, seed: SeedStep -> SeedReply<string>, chosen: SeedStep -> bool)
    returns (tracked: seq<string>, expected: seq<string>, obstacle: Option<SeedReply<string>>)
    ensures tracked == PreparedPaths(steps, seed) && expected == ChosenPaths(steps, seed, chosen)
    ensures obstacle == if |tracked| == |steps| then None else Some(seed(steps[|tracked|]))
    ensures obstacle.Some? ==> !obstacle.value.Seeded?
  {
    tracked, expected := [], [];
    var rest := steps;
    while rest != []
      invariant tracked + PreparedPaths(rest, seed) == PreparedPaths(steps, seed)
      invariant expected + ChosenPaths(rest, seed, chosen) == ChosenPaths(steps, seed, chosen)
      invariant |tracked| + |rest| == |steps| && rest == steps[|tracked|..]
      decreases |rest|
    {
      var reply := seed(rest[0]);
      if !reply.Seeded? {
        return tracked, expected, Some(reply);
      }
      tracked := tracked + [reply.path];
      if chosen(rest[0]) {
        expected := expected + [reply.path];
      }
      rest := rest[1..];
    }
    obstacle := None;
  }

  // ---------- requests and rejections ----------

  datatype FsError = FsError(kind: ErrorKind, operation: string, path: Option<string>,
                             capability: Option<Capability>, provider: Option<string>)

  datatype Filter = NoFilter | LiteralPrefix(text: string) | Subtree(name: string)

  datatype Request = Request(filter: Filter, recursive: bool, metadata: bool, maxEntries: Option<nat>,
                             pageSize: Option<nat>)

  datatype ListReply = Opened(stream: Stream) | Refused(error: FsError)

  datatype CheckResult = Recorded(outcome: Outcome) | Broken(reason: string)

  const LIST := Capability("list")

  // ---------- listing below a root ----------

  datatype Kind = Basic | Prefix | Pagination | Literal

  function Steps(kind: Kind, hierarchical: bool): seq<SeedStep> {
    match kind
    case Prefix =>
      [SeedDirectory("prefixed"), SeedFile("prefixed/first"), SeedFile("prefixed/second"), SeedFile("decoy")]
    case Literal => [SeedFile("literal[1]-match"), SeedFile("literal1-decoy")]
    case Pagination => [SeedFile("first"), SeedFile("second"), SeedFile("third")]
    case Basic => if hierarchical then [SeedFile("first"), SeedFile("second")]
                  else [SeedFile("first"), SeedFile("nested/second")]
  }

  predicate Chosen(kind: Kind, step: SeedStep) {
    step.SeedDirectory? ||
    match kind
    case Prefix => "prefixed/" <= step.name
    case Literal => "literal[1]" <= step.name
    case _ => true
  }

  function BaseRequest(kind: Kind): Request {
    match kind
    case Literal => Request(LiteralPrefix("literal[1]"), false, false, None, None)
    case Prefix => Request(Subtree("prefixed"), true, false, None, None)
    case _ => Request(NoFilter, false, false, None, None)
  }

  /** The request is bounded to one entry more than expected. */
  function BoundedRequest(kind: Kind, expected: nat): Request {
    BaseRequest(kind).(metadata := kind.Prefix? || kind.Pagination?, maxEntries := Some(expected + 1),
                       pageSize := if kind.Pagination? then Some(1) else None)
  }

  predicate Incompatible(kind: Kind, hierarchical: bool) {
    (hierarchical && kind.Literal?) || (!hierarchical && kind.Prefix?)
  }

  /** The rejection the contract demands of an incompatible or unsupported request. */
  predicate ProperRejection(reply: ListReply, root: string, provider: string, incompatible: bool) {
    && reply.Refused?
    && reply.error.kind == (if incompatible then InvalidOptions else UnsupportedCapability)
    && reply.error.operation == "list" && reply.error.path == Some(root)
    && reply.error.capability == (if incompatible then None else Some(LIST))
    && (reply.error.provider == None || reply.error.provider == Some(provider))
  }

  /** What the fixture and the facade answer during one listing check. */
  datatype ListEnv = ListEnv(hierarchical: bool, capable: bool, provider: string, root: Option<string>,
                             seed: SeedStep -> SeedReply<string>, list: Request -> ListReply)

  /** A compatible listing check passes exactly when everything could be prepared and the listing is exact. */
  ghost predicate ListingIsExact(kind: Kind, env: ListEnv) {
    var steps := Steps(kind, env.hierarchical);
    var expected := ListExpected(kind, env);
    var reply := env.list(BoundedRequest(kind, |expected|));
    && |PreparedPaths(steps, env.seed)| == |steps|
    && reply.Opened? && Exactly(reply.stream, expected, kind.Prefix? || kind.Pagination?)
  }

  /** The entries a listing check must see. */
  function ListExpected(kind: Kind, env: ListEnv): seq<string> {
    ChosenPaths(Steps(kind, env.hierarchical), env.seed, step => Chosen(kind, step))
  }

  /** One listing check. It requests at most one entry more than it expects, however long the stream goes on. */
  method CheckListItem(kind: Kind, env: ListEnv)
    returns (result: CheckResult, tracked: seq<string>, consumed: nat)
    ensures consumed <= |ListExpected(kind, env)| + 1
    ensures env.root.None? ==> result.Broken? && tracked == []
    ensures env.root.Some? && (Incompatible(kind, env.hierarchical) || !env.capable) ==>
              && tracked == []
              && result == if ProperRejection(env.list(BaseRequest(kind)), env.root.value, env.provider,
                                              Incompatible(kind, env.hierarchical))
                           then Recorded(RejectedAsExpected) else Broken("rejection")
    ensures env.root.Some? && !Incompatible(kind, env.hierarchical) && env.capable ==>
              var steps := Steps(kind, env.hierarchical);
              && tracked == PreparedPaths(steps, env.seed)
              && (result == Recorded(Passed) <==> ListingIsExact(kind, env))
              && (result.Recorded? && result.outcome != Passed <==>
                  |tracked| < |steps| && env.seed(steps[|tracked|]).SeedUnsupported?)
              && (result.Recorded? && result.outcome != Passed ==> result.outcome.Unverified?)
  {
    tracked, consumed := [], 0;
    if env.root.None? {
      return Broken("list root preparation failed"), tracked, consumed;
    }
    var incompatible := Incompatible(kind, env.hierarchical);
    if incompatible || !env.capable {
      var proper := ProperRejection(env.list(BaseRequest(kind)), env.root.value, env.provider, incompatible);
      return if proper then Recorded(RejectedAsExpected) else Broken("rejection"), tracked, consumed;
    }
    var expected, obstacle;
    tracked, expected, obstacle := PrepareAll(Steps(kind, env.hierarchical), env.seed, step => Chosen(kind, step));
    match obstacle {
      case Some(SeedUnsupported) =>
        return Recorded(Outcome.Unverified("listing needs independently prepared entries")), tracked, consumed;
      case Some(_) => return Broken("list entry preparation failed"), tracked, consumed;
      case None =>
    }
    var reply := env.list(BoundedRequest(kind, |expected|));
    if reply.Refused? {
      return Broken("list request failed"), tracked, consumed;
    }
    var passed;
    passed, consumed := CompareStream(expected, kind.Prefix? || kind.Pagination?, reply.stream);
    result := if passed then Recorded(Passed) else Broken("entries mismatch");
  }

  // ---------- listing a flat namespace ----------

  datatype SnapshotReply = Snapshot(paths: seq<string>) | SnapshotUnsupported | SnapshotFailed(code: int)

  datatype FlatEnv = FlatEnv(hierarchical: bool, capable: bool, provider: string, relative: string,
                             scope: Option<string>,
                             seed: SeedStep -> SeedReply<string>, snapshot: SnapshotReply, list: Request -> ListReply)

  function FlatSteps(namespace: bool, relative: string): seq<SeedStep> {
    if namespace then [SeedFile(relative), SeedFile(relative + "/nested/key")]
    else [SeedFile(relative), SeedFile(relative + "/a"), SeedFile(relative + "ish"), SeedFile("unrelated-" + relative)]
  }

  /** Everything prepared but the unrelated file. */
  predicate FlatChosen(relative: string, step: SeedStep) {
    step != SeedFile("unrelated-" + relative)
  }

  function FlatRequest(maxEntries: Option<nat>): Request {
    Request(LiteralPrefix(""), false, false, maxEntries, None)
  }

  predicate ProperFlatRejection(reply: ListReply, scope: Option<string>, provider: string, hierarchical: bool) {
    && reply.Refused?
    && reply.error.kind == (if hierarchical then InvalidOptions else UnsupportedCapability)
    && reply.error.operation == "list" && reply.error.path == scope
    && reply.error.capability == (if hierarchical then None else Some(LIST))
    && reply.error.provider == Some(provider)
  }

  /** What a flat listing must show: the whole snapshot for a namespace, the matching prepared files otherwise. */
  function FlatExpected(namespace: bool, env: FlatEnv): seq<string> {
    if namespace && env.snapshot.Snapshot? then env.snapshot.paths
    else ChosenPaths(FlatSteps(namespace, env.relative), env.seed, step => FlatChosen(env.relative, step))
  }

  /** Everything was prepared, and the snapshot of a namespace covers what was. */
  predicate FlatPrepared(namespace: bool, env: FlatEnv) {
    var steps := FlatSteps(namespace, env.relative);
    && |PreparedPaths(steps, env.seed)| == |steps|
    && (namespace ==>
          env.snapshot.Snapshot? && forall p | p in PreparedPaths(steps, env.seed) :: p in env.snapshot.paths)
  }

  /** The fixture cannot provide the evidence a flat check needs. */
  predicate FlatUnsupported(namespace: bool, env: FlatEnv) {
    var steps := FlatSteps(namespace, env.relative);
    var made := |PreparedPaths(steps, env.seed)|;
    if made < |steps| then env.seed(steps[made]).SeedUnsupported?
    else namespace && env.snapshot.SnapshotUnsupported?
  }

  ghost predicate FlatListingIsExact(namespace: bool, env: FlatEnv) {
    var expected := FlatExpected(namespace, env);
    var reply := env.list(FlatRequest(Some(|expected| + 1)));
    FlatPrepared(namespace, env) && reply.Opened? && Exactly(reply.stream, expected, false)
  }

  /** Prepares the files of a flat check and fixes what its listing must show. */
  method PrepareFlat(namespace: bool, env: FlatEnv)
    returns (expected: seq<string>, tracked: seq<string>, exit: Option<CheckResult>)
    ensures tracked == PreparedPaths(FlatSteps(namespace, env.relative), env.seed)
    ensures exit == None <==> FlatPrepared(namespace, env)
    ensures exit == None ==> expected == FlatExpected(namespace, env)
    ensures exit.Some? ==>
              if FlatUnsupported(namespace, env) then exit.value.Recorded? && exit.value.outcome.Unverified?
              else exit.value.Broken?
  {
    var steps := FlatSteps(namespace, env.relative);
    var obstacle;
    tracked, expected, obstacle := PrepareAll(steps, env.seed, step => FlatChosen(env.relative, step));
    match obstacle {
      case Some(SeedUnsupported) =>
        return expected, tracked, Some(Recorded(Outcome.Unverified("flat listing needs independent file preparation")));
      case Some(_) => return expected, tracked, Some(Broken("flat listing seed failed"));
      case None =>
    }
    if namespace {
      match env.snapshot {
        case SnapshotFailed(_) => return expected, tracked, Some(Broken("namespace snapshot failed"));
        case SnapshotUnsupported =>
          return expected, tracked,
                 Some(Recorded(Outcome.Unverified("namespace listing needs an independent complete snapshot")));
        case Snapshot(paths) =>
          NamespaceChoosesAll(env.relative, env.seed);
          if !forall p | p in expected :: p in paths {
            return expected, tracked, Some(Broken("namespace snapshot omitted seeded paths"));
          }
          expected := paths;
      }
    }
    exit := None;
  }

  /** One flat listing check, under the same bound on what it requests. */
  method CheckFlatScopeItem(namespace: bool, env: FlatEnv)
    returns (result: CheckResult, tracked: seq<string>, consumed: nat)
    requires namespace ==> env.scope.None?
    ensures consumed <= |FlatExpected(namespace, env)| + 1
    ensures !namespace && env.scope.None? ==> result.Broken? && tracked == []
    ensures (namespace || env.scope.Some?) && (env.hierarchical || !env.capable) ==>
              && tracked == []
              && result == if ProperFlatRejection(env.list(FlatRequest(None)), env.scope, env.provider,
                                                  env.hierarchical)
                           then Recorded(RejectedAsExpected) else Broken("rejection")
    ensures (namespace || env.scope.Some?) && !env.hierarchical && env.capable ==>
              && tracked == PreparedPaths(FlatSteps(namespace, env.relative), env.seed)
              && (result == Recorded(Passed) <==> FlatListingIsExact(namespace, env))
              && (result.Recorded? && result.outcome != Passed <==> FlatUnsupported(namespace, env))
              && (result.Recorded? && result.outcome != Passed ==> result.outcome.Unverified?)
  {
    tracked, consumed := [], 0;
    if !namespace && env.scope.None? {
      return Broken("raw prefix preparation failed"), tracked, consumed;
    }
    if env.hierarchical || !env.capable {
      var proper := ProperFlatRejection(env.list(FlatRequest(None)), env.scope, env.provider, env.hierarchical);
      return if proper then Recorded(RejectedAsExpected) else Broken("rejection"), tracked, consumed;
    }
    var expected, exit;
    expected, tracked, exit := PrepareFlat(namespace, env);
    if exit.Some? {
      return exit.value, tracked, consumed;
    }
    var reply := env.list(FlatRequest(Some(|expected| + 1)));
    if reply.Refused? {
      return Broken("flat listing open failed"), tracked, consumed;
    }
    var passed;
    passed, consumed := CompareStream(expected, false, reply.stream);
    result := if passed then Recorded(Passed) else Broken("entries mismatch");
  }

  /** In a namespace check every prepared file must be listed. */
  lemma {:induction false} NamespaceChoosesAll(relative: string, seed: SeedStep -> SeedReply<string>)
    ensures var steps := FlatSteps(true, relative);
            ChosenPaths(steps, seed, step => FlatChosen(relative, step)) == PreparedPaths(steps, seed)
  {
    var more, unrelated := relative + "/nested/key", "unrelated-" + relative;
    assert |relative| < |unrelated| < |more|;
    var first, second := SeedFile(relative), SeedFile(more);
    assert FlatChosen(relative, first) && FlatChosen(relative, second);
    var steps := FlatSteps(true, relative);
    assert steps[0] == first && steps[1..] == [second] && [second][1..] == [];
    assert ChosenPaths([second], seed, step => FlatChosen(relative, step)) == PreparedPaths([second], seed);
  }

  // ---------- what is asked for, and what an honest listing shows ----------

  /**
   Subtree listings need hierarchical paths, and literal prefixes do not go with them;
   nothing else is incompatible.
   */
  lemma {:induction false} IncompatibleExactly(kind: Kind, hierarchical: bool)
    ensures Incompatible(kind, hierarchical) <==> (kind, hierarchical) in {(Literal, true), (Prefix, false)}
  {
  }

  /** A proper rejection names its kind, the operation, the root, and the missing capability, and no other provider. */
  lemma {:induction false} ProperRejectionExactly(e: FsError, root: string, provider: string, incompatible: bool)
    ensures ProperRejection(Refused(e), root, provider, incompatible) <==>
            exists p :: p in {None, Some(provider)} &&
              e == if incompatible then FsError(InvalidOptions, "list", Some(root), None, p)
                   else FsError(UnsupportedCapability, "list", Some(root), Some(Capability("list")), p)
  {
    if ProperRejection(Refused(e), root, provider, incompatible) {
      assert e.provider in {None, Some(provider)};
    }
  }

  lemma {:induction false} ProperFlatRejectionExactly(e: FsError, scope: Option<string>, provider: string,
                                                      hierarchical: bool)
    ensures ProperFlatRejection(Refused(e), scope, provider, hierarchical) <==>
            e == if hierarchical then FsError(InvalidOptions, "list", scope, None, Some(provider))
                 else FsError(UnsupportedCapability, "list", scope, Some(Capability("list")), Some(provider))
  {
  }

  /** The path at which a file was published. */
  function FileAt(seed: SeedStep -> SeedReply<string>, name: string): string
    requires seed(SeedFile(name)).Seeded?
  {
    seed(SeedFile(name)).path
  }

  lemma {:induction false} ChooseFirst(step: SeedStep, rest: seq<SeedStep>, seed: SeedStep -> SeedReply<string>,
                                       chosen: SeedStep -> bool)
    requires seed(step).Seeded?
    ensures ChosenPaths([step] + rest, seed, chosen) ==
            (if chosen(step) then [seed(step).path] else []) + ChosenPaths(rest, seed, chosen)
  {
    assert ([step] + rest)[1..] == rest;
  }

  /** What each kind of check must see, when the fixture publishes everything it is asked for. */
  lemma {:induction false} ExpectedOfPrefix(env: ListEnv)
    requires forall step :: env.seed(step).Seeded?
    ensures ListExpected(Prefix, env) ==
            [env.seed(SeedDirectory("prefixed")).path, FileAt(env.seed, "prefixed/first"),
             FileAt(env.seed, "prefixed/second")]
  {
    var chosen := step => Chosen(Prefix, step);
    var a, b := SeedDirectory("prefixed"), SeedFile("prefixed/first");
    var c, d := SeedFile("prefixed/second"), SeedFile("decoy");
    BelowPrefixed();
    ChooseFour(a, b, c, d, env.seed, chosen);
  }

  lemma {:induction false} BelowPrefixed()
    ensures Chosen(Prefix, SeedFile("prefixed/first")) && Chosen(Prefix, SeedFile("prefixed/second"))
    ensures !Chosen(Prefix, SeedFile("decoy"))
  {
    assert "prefixed/first"[..9] == "prefixed/" && "prefixed/second"[..9] == "prefixed/" && |"decoy"| < |"prefixed/"|;
  }

  lemma {:induction false} ChooseFour(a: SeedStep, b: SeedStep, c: SeedStep, d: SeedStep,
                                      seed: SeedStep -> SeedReply<string>, chosen: SeedStep -> bool)
    requires forall step :: seed(step).Seeded?
    requires chosen(a) && chosen(b) && chosen(c) && !chosen(d)
    ensures ChosenPaths([a, b, c, d], seed, chosen) == [seed(a).path, seed(b).path, seed(c).path]
  {
    ChooseFirst(d, [], seed, chosen);
    ChooseFirst(c, [d], seed, chosen);
    ChooseFirst(b, [c, d], seed, chosen);
    ChooseFirst(a, [b, c, d], seed, chosen);
    assert [d] + [] == [d] && [c] + [d] == [c, d] && [b] + [c, d] == [b, c, d] && [a] + [b, c, d] == [a, b, c, d];
  }

  lemma {:induction false} ExpectedOfLiteral(env: ListEnv)
    requires forall step :: env.seed(step).Seeded?
    ensures ListExpected(Literal, env) == [FileAt(env.seed, "literal[1]-match")]
  {
    var chosen := step => Chosen(Literal, step);
    var a, b := SeedFile("literal[1]-match"), SeedFile("literal1-decoy");
    assert "literal[1]-match"[..10] == "literal[1]" && "literal1-decoy"[7] == '1' && "literal[1]"[7] == '[';
    ChooseFirst(b, [], env.seed, chosen);
    ChooseFirst(a, [b], env.seed, chosen);
    assert [b] + [] == [b] && [a] + [b] == Steps(Literal, env.hierarchical);
  }

  lemma {:induction false} ExpectedOfOthers(env: ListEnv)
    requires forall step :: env.seed(step).Seeded?
    ensures ListExpected(Pagination, env) ==
            [FileAt(env.seed, "first"), FileAt(env.seed, "second"), FileAt(env.seed, "third")]
    ensures ListExpected(Basic, env) ==
            [FileAt(env.seed, "first"), FileAt(env.seed, if env.hierarchical then "second" else "nested/second")]
  {
    var chosen, a, b, c := step => Chosen(Pagination, step), SeedFile("first"), SeedFile("second"), SeedFile("third");
    ChooseFirst(c, [], env.seed, chosen);
    ChooseFirst(b, [c], env.seed, chosen);
    ChooseFirst(a, [b, c], env.seed, chosen);
    assert [c] + [] == [c] && [b] + [c] == [b, c] && [a] + [b, c] == Steps(Pagination, env.hierarchical);
    var basic, last := step => Chosen(Basic, step), if env.hierarchical then b else SeedFile("nested/second");
    ChooseFirst(last, [], env.seed, basic);
    ChooseFirst(a, [last], env.seed, basic);
    assert [last] + [] == [last] && [a] + [last] == Steps(Basic, env.hierarchical);
  }

  /**
   The reply of a provider that honours the requested maximum: the first entries it has
   to show, with metadata if asked for, and then the end.
   */
  ghost predicate Shows(reply: ListReply, shown: seq<string>, maximum: nat, metadata: bool) {
    && reply.Opened?
    && var n := if |shown| <= maximum then |shown| else maximum;
       (forall i | 0 <= i < n :: reply.stream(i) == Entry(shown[i], metadata)) && reply.stream(n) == End
  }

  /** Asking for one entry more than expected is enough to notice a surplus one. */
  lemma {:induction false} ShownExactlyIff(reply: ListReply, shown: seq<string>, expected: seq<string>, metadata: bool)
    requires Shows(reply, shown, |expected| + 1, metadata)
    ensures Exactly(reply.stream, expected, metadata) <==> multiset(shown) == multiset(expected)
  {
    var stream, n := reply.stream, |expected|;
    if |shown| == n {
      PathsInOrder(stream, n);
      assert PathsOf(stream, n) == shown;
    } else if multiset(shown) == multiset(expected) {
      SameElements(shown, expected);
    } else if |shown| < n {
      assert stream(|shown|).End?;
    } else {
      assert stream(n).Entry?;
    }
  }

  /**
   Against a provider that honours the request, a listing check whose preparation went
   through passes exactly when the provider shows, under the filter of its kind, the
   expected entries and no others.
   */
  lemma {:induction false} HonestListingIff(kind: Kind, env: ListEnv, shown: seq<string>)
    requires |PreparedPaths(Steps(kind, env.hierarchical), env.seed)| == |Steps(kind, env.hierarchical)|
    requires var n := |ListExpected(kind, env)| + 1;
             match kind
             case Basic => Shows(env.list(Request(NoFilter, false, false, Some(n), None)), shown, n, false)
             case Pagination => Shows(env.list(Request(NoFilter, false, true, Some(n), Some(1))), shown, n, true)
             case Prefix => Shows(env.list(Request(Subtree("prefixed"), true, true, Some(n), None)), shown, n, true)
             case Literal =>
               Shows(env.list(Request(LiteralPrefix("literal[1]"), false, false, Some(n), None)), shown, n, false)
    ensures ListingIsExact(kind, env) <==> multiset(shown) == multiset(ListExpected(kind, env))
  {
    var expected := ListExpected(kind, env);
    ShownExactlyIff(env.list(BoundedRequest(kind, |expected|)), shown, expected, kind.Prefix? || kind.Pagination?);
  }

  /** A flat listing must show the matching prepared files; that of a namespace, whatever the snapshot has. */
  lemma {:induction false} FlatExpectedExactly(env: FlatEnv)
    requires forall step :: env.seed(step).Seeded?
    ensures FlatExpected(false, env) ==
            [FileAt(env.seed, env.relative), FileAt(env.seed, env.relative + "/a"),
             FileAt(env.seed, env.relative + "ish")]
    ensures env.snapshot.Snapshot? ==> FlatExpected(true, env) == env.snapshot.paths
    ensures PreparedPaths(FlatSteps(true, env.relative), env.seed) ==
            [FileAt(env.seed, env.relative), FileAt(env.seed, env.relative + "/nested/key")]
  {
    var name := env.relative;
    var chosen := step => FlatChosen(name, step);
    var a, b, c, d := SeedFile(name), SeedFile(name + "/a"), SeedFile(name + "ish"), SeedFile("unrelated-" + name);
    assert |name| < |name + "/a"| < |name + "ish"| < |"unrelated-" + name|;
    ChooseFour(a, b, c, d, env.seed, chosen);
    var key := SeedFile(name + "/nested/key");
    assert FlatSteps(true, name)[1..] == [key] && [key][1..] == [];
    assert PreparedPaths([key], env.seed) == [env.seed(key).path] + PreparedPaths([], env.seed);
  }

  lemma {:induction false} HonestFlatListingIff(namespace: bool, env: FlatEnv, shown: seq<string>)
    requires |PreparedPaths(FlatSteps(namespace, env.relative), env.seed)| == |FlatSteps(namespace, env.relative)|
    requires namespace ==>
               env.snapshot.Snapshot? &&
               forall p | p in PreparedPaths(FlatSteps(true, env.relative), env.seed) :: p in env.snapshot.paths
    requires var n := |FlatExpected(namespace, env)| + 1;
             Shows(env.list(Request(LiteralPrefix(""), false, false, Some(n), None)), shown, n, false)
    ensures FlatListingIsExact(namespace, env) <==> multiset(shown) == multiset(FlatExpected(namespace, env))
  {
    var expected := FlatExpected(namespace, env);
    ShownExactlyIff(env.list(FlatRequest(Some(|expected| + 1))), shown, expected, false);
  }

  /** What each kind of check prepares beside what it must see: decoys that its filter has to keep out. */
  lemma {:induction false} PreparedByKind(env: ListEnv)
    requires forall step :: env.seed(step).Seeded?
    ensures PreparedPaths(Steps(Prefix, env.hierarchical), env.seed) ==
            ListExpected(Prefix, env) + [FileAt(env.seed, "decoy")]
    ensures PreparedPaths(Steps(Literal, env.hierarchical), env.seed) ==
            ListExpected(Literal, env) + [FileAt(env.seed, "literal1-decoy")]
  {
    ExpectedOfPrefix(env);
    ExpectedOfLiteral(env);
    PreparedAll(Steps(Prefix, env.hierarchical), env.seed);
    PreparedAll(Steps(Literal, env.hierarchical), env.seed);
  }

  lemma {:induction false} FlatDecoyIsPrepared(env: FlatEnv)
    requires forall step :: env.seed(step).Seeded?
    ensures PreparedPaths(FlatSteps(false, env.relative), env.seed) ==
            FlatExpected(false, env) + [FileAt(env.seed, "unrelated-" + env.relative)]
  {
    FlatExpectedExactly(env);
    PreparedAll(FlatSteps(false, env.relative), env.seed);
  }

  lemma {:induction false} PreparedAll(steps: seq<SeedStep>, seed: SeedStep -> SeedReply<string>)
    requires forall step :: seed(step).Seeded?
    ensures PreparedPaths(steps, seed) == seq(|steps|, i requires 0 <= i < |steps| => seed(steps[i]).path)
  {
    PreparedInOrder(steps, seed);
  }

  /** A request that must be refused asks for the filter of its kind and nothing else. */
  lemma {:induction false} RefusedRequests()
    ensures BaseRequest(Basic) == BaseRequest(Pagination) == Request(NoFilter, false, false, None, None)
    ensures BaseRequest(Prefix) == Request(Subtree("prefixed"), true, false, None, None)
    ensures BaseRequest(Literal) == Request(LiteralPrefix("literal[1]"), false, false, None, None)
    ensures FlatRequest(None) == Request(LiteralPrefix(""), false, false, None, None)
  {
  }
}
