/** What a writer session answers, as the harness sees it, and which sessions are still owed an abort. */
module Writers {
  import opened Common

  datatype FailureState = NotPublished | RetryableNotPublished | Published | Indeterminate

  /** The writer, or the unvalidated session, that a failed operation retains. */
  datatype Session = OpenedSession(writer: nat) | RejectedSession(session: nat)

  datatype AbortOutcome = AbortNotPublished | AbortPublished | AbortIndeterminate

  /** How a call of a writer's abort ends; only an awaited one can be dropped. */
  datatype AbortReply =
    | AbortReturned(outcome: AbortOutcome)
    | AbortFailed(code: int)
    | AbortPanicked(payload: int)
    | AbortDropped

  type BlockingReply = reply: AbortReply | !reply.AbortDropped? witness AbortReturned(AbortNotPublished)

  /** A call of a writer's abort that was made, and how it ended. */
  datatype AbortCall = AbortCall(writer: nat, reply: AbortReply)

  /** The calls made to settle a retained session: an opened writer is aborted once, a rejected session cannot be. */
  function CallsFor(retained: Option<Session>, reply: AbortReply): seq<AbortCall> {
    match retained
    case Some(OpenedSession(writer)) => [AbortCall(writer, reply)]
    case _ => []
  }

  /** The session's abort was called, and returned an outcome. */
  predicate Discharged(session: Session, calls: seq<AbortCall>) {
    session.OpenedSession? && exists call | call in calls :: call.writer == session.writer && call.reply.AbortReturned?
  }
}
