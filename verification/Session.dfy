/** The session an agent enforces (agent/src/session.rs): no I/O, no clock of its own. */
module Session {
  import opened Basics

  datatype SessionStatus = Active | Expired | Ended

  datatype SessionSnapshot = SessionSnapshot(
    id: string,
    startedAt: Millis,
    expiresAt: Millis,
    status: SessionStatus,
    updatedAt: Millis)

  datatype Desired = Allowed | Blocked

  /** The machine may be used: an active session whose deadline is still ahead. */
  predicate Usable(session: Option<SessionSnapshot>, now: Millis) {
    session.Some? && session.value.status.Active? && now < session.value.expiresAt
  }

  /** Offline expiry: an active session whose deadline has passed is marked expired. */
  function Expire(session: Option<SessionSnapshot>, now: Millis): Option<SessionSnapshot> {
    if session.Some? && session.value.status.Active? && now >= session.value.expiresAt
    then Some(session.value.(status := Expired))
    else session
  }

  /** A message is accepted only if it is strictly newer than the last accepted one. */
  predicate Newer(messageTime: Millis, lastAppliedAt: Millis) {
    messageTime > lastAppliedAt
  }

  /** The two fields of the agent's state that server messages and ticks change in place. */
  class EnforcedSession {
    var session: Option<SessionSnapshot>
    var lastAppliedAt: Millis

    constructor (session: Option<SessionSnapshot>, lastAppliedAt: Millis)
      ensures this.session == session && this.lastAppliedAt == lastAppliedAt
    {
      this.session := session;
      this.lastAppliedAt := lastAppliedAt;
    }

    method ApplyServerMessage(incoming: Option<SessionSnapshot>, messageTime: Millis) returns (applied: bool)
      modifies this
      ensures applied <==> messageTime > old(lastAppliedAt)
      ensures applied ==> session == incoming && lastAppliedAt == messageTime
      ensures !applied ==> session == old(session) && lastAppliedAt == old(lastAppliedAt)
    {
      if messageTime <= lastAppliedAt {
        return false;
      }
      session := incoming;
      lastAppliedAt := messageTime;
      return true;
    }

    method Advance(trustedNow: Millis) returns (desired: Desired)
      modifies this`session
      ensures session == Expire(old(session), trustedNow)
      ensures desired.Allowed? <==> Usable(old(session), trustedNow)
    {
      match session {
        case Some(s) =>
          if s.status.Active? && trustedNow >= s.expiresAt {
            session := Some(s.(status := Expired));
          }
        case None =>
      }
      if session.Some? && session.value.status.Active? && trustedNow < session.value.expiresAt {
        desired := Allowed;
      } else {
        desired := Blocked;
      }
    }
  }
}
