/** Values shared by every part of the contract-test harness. */
module Common {

  datatype Option<+T> = None | Some(value: T)

  const U64_MAX: nat := 0xFFFF_FFFF_FFFF_FFFF

  /** `u64::saturating_add(1)`. */
  function SaturatingSucc(n: nat): nat {
    if n >= U64_MAX then U64_MAX else n + 1
  }

  /** A hierarchical path, root first. */
  type Path = seq<string>

  /** `p` lies strictly below the directory `d`. */
  predicate Below(p: Path, d: Path) {
    d < p
  }

  /** What a fixture answers when asked to publish a file at some path. */
  datatype SeedReply<+P> = Seeded(path: P) | SeedUnsupported | SeedFailed(code: int)

  /** The kinds of facade error that checks tell apart. */
  datatype ErrorKind = InvalidOptions | UnsupportedCapability | ResourceLimitExceeded | OtherKind(code: int)

  /** A check identity is its stable name. */
  datatype CheckId = CheckId(name: string)

  /** Why a cleanup call did not confirm that a resource is gone. */
  datatype CleanupCause =
    | FacadeError(code: int)
    | ProviderPanic(payload: int)
    | StillExists
    | Unconfirmed(code: int)

  /** `cause` was met by `operation` on the resource at `path`, which `owner` created. */
  datatype CleanupFailure =
    CleanupFailure(owner: string, operation: string, path: Path, cause: CleanupCause)

  datatype FailureCause =
    | Message(text: string)
    | CleanupFault(fault: CleanupFailure)
    | FixtureFault(what: string, code: int)
    | Panicked(what: string, payload: int)

  /** A retained failure, attributed to a check when one is known. */
  datatype ContractFailure = ContractFailure(check: Option<CheckId>, cause: FailureCause)

  /** How long a future is polled: to its end, or for a number of completed awaits before it is dropped. */
  datatype Lifetime = Forever | Polls(left: nat) {
    predicate Spent() {
      this == Polls(0)
    }

    function Tick(): Lifetime
      requires !Spent()
    {
      if Forever? then Forever else Polls(left - 1)
    }
  }
}
