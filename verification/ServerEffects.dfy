/**
  What every step of the server and the network does, told socket by socket and row by row: the
  frames and close codes that go out and to whom, the rows, and what operators hear. These
  tables name none of the service's own operations.
 */
module ServerEffects {
  import opened Basics
  import opened Session
  import opened Wire
  import opened Machines
  import opened MachineRuns
  import Registry

  /** The registry's entry for the machine is this socket. */
  predicate Entry(s: Server, m: MachineId, sid: SocketId) {
    m in s.registry.agents && s.registry.agents[m] == sid
  }

  predicate Enrolled(s: Server, m: MachineId) {
    m in s.rows && s.rows[m].credential.Some? && s.rows[m].revokedAt.None?
  }

  predicate Presented(s: Server, sid: SocketId)
    requires sid in s.registry.sockets
  {
    var socket := s.registry.sockets[sid];
    Enrolled(s, socket.machine) && s.rows[socket.machine].credential.value == socket.secret
  }

  predicate Pending(s: Server, m: MachineId) {
    m in s.rows && s.rows[m].decommissionRequestedAt.Some?
  }

  /** The step handles an acknowledgement of a pending machine. */
  predicate Acknowledges(s: Server, op: Op, m: MachineId)
    requires Enabled(s, op)
  {
    op.Handle? && s.registry.sockets[op.sid].toServer[0].DecommissionAck?
    && s.registry.sockets[op.sid].machine == m && Pending(s, m)
  }

  /** What the step writes to socket `sid`, if that is open. */
  function FrameTo(s: Server, op: Op, sid: SocketId): Option<Frame>
    requires Enabled(s, op)
  {
    match op
    case Request(m, _) =>
      if m !in s.rows || !Entry(s, m, sid) then None
      else if Enrolled(s, m) then Some(DecommissionOrder) else Some(Close(4002))
    case Revoke(m, _) => if Entry(s, m, sid) then Some(Close(4001)) else None
    case Push(m, session, now) => if Entry(s, m, sid) then Some(SessionUpdate(session, now)) else None
    case Authenticate(joining) =>
      if !Presented(s, joining) then if sid == joining then Some(Close(4001)) else None
      else if sid != joining && Entry(s, s.registry.sockets[joining].machine, sid) then Some(Close(4000)) else None
    case Greet(greeted, session, now) =>
      var m := s.registry.sockets[greeted].machine;
      if sid != greeted || m !in s.rows then None
      else if Pending(s, m) then Some(DecommissionOrder) else Some(SessionUpdate(session, now))
    case Handle(from, now) =>
      var m := s.registry.sockets[from].machine;
      if Acknowledges(s, op, m) then if Entry(s, m, sid) then Some(Close(4003)) else None
      else if s.registry.sockets[from].toServer[0].Heartbeat? && sid == from && m in s.rows then Some(HeartbeatAck(now))
      else None
    case _ => None
  }

  /** The socket after the step. */
  ghost predicate SocketAfter(s: Server, op: Op, sid: SocketId, after: Socket)
    requires Enabled(s, op) && sid in s.registry.sockets
  {
    var before := s.registry.sockets[sid];
    var frame := FrameTo(s, op, sid);
    && after.machine == before.machine && after.secret == before.secret
    && after.toAgent == (if op == Take(sid) then before.toAgent[1..]
                         else if op == Cut(sid) then []
                         else if before.open && frame.Some? then before.toAgent + [frame.value]
                         else before.toAgent)
    && after.toServer == (if op.Arrive? && op.sid == sid then before.toServer + [op.message]
                          else if (op.Handle? || op.Discard?) && op.sid == sid then before.toServer[1..]
                          else if op == Cut(sid) then []
                          else before.toServer)
    && after.open == (before.open && !(frame.Some? && frame.value.Close?) && op != Disconnect(sid))
    && after.linked == (before.linked && op != Unlink(sid) && op != Cut(sid))
    && after.phase == (if op == Authenticate(sid) then if Presented(s, sid) then Registered else Gone
                       else if op.Greet? && op.sid == sid then Greeted
                       else if op == Disconnect(sid) && (before.phase.Registered? || before.phase.Greeted?) then Gone
                       else before.phase)
  }

  ghost predicate SocketsAfter(s: Server, op: Op, s': Server)
    requires Enabled(s, op)
  {
    && (forall sid :: sid in s'.registry.sockets <==> sid in s.registry.sockets || (op.Upgrade? && op.sid == sid))
    && (forall sid :: sid in s.registry.sockets ==> SocketAfter(s, op, sid, s'.registry.sockets[sid]))
    && (op.Upgrade? ==> s'.registry.sockets[op.sid] == Socket(op.machine, op.secret, Upgraded, true, true, [], []))
  }

  /** The row of machine `m` after the step. */
  function RowAfter(s: Server, op: Op, m: MachineId): Option<Row>
    requires Enabled(s, op)
  {
    if op.Create? && m == s.nextMachine then Some(Row(None, None, None))
    else if m !in s.rows || Acknowledges(s, op, m) then None
    else
      var row := s.rows[m];
      match op
      case Enroll(machine) => Some(if machine == m then Row(Some(s.nextSecret), None, row.decommissionRequestedAt)
        else row)
      case Revoke(machine, now) => Some(if machine == m then Row(None, Some(now), row.decommissionRequestedAt) else row)
      case Request(machine, now) =>
        if machine != m then Some(row)
        else if !Enrolled(s, m) then None
        else Some(Row(row.credential, None, if Pending(s, m) then row.decommissionRequestedAt else Some(now)))
      case _ => Some(row)
  }

  function NoticesOf(s: Server, op: Op): seq<Notice>
    requires Enabled(s, op)
  {
    match op
    case Request(m, _) =>
      if m !in s.rows then []
      else if !Enrolled(s, m) then [MachineRemoved(m)]
      else if Pending(s, m) then [] else [MachineDecommissioning(m)]
    case Handle(sid, _) =>
      var m := s.registry.sockets[sid].machine;
      if Acknowledges(s, op, m) then [MachineRemoved(m)] else []
    case _ => []
  }

  ghost predicate RowsAfter(s: Server, op: Op, s': Server)
    requires Enabled(s, op)
  {
    && (forall m :: m in s'.rows <==> RowAfter(s, op, m).Some?)
    && (forall m :: m in s'.rows ==> RowAfter(s, op, m) == Some(s'.rows[m]))
    && s'.notices == s.notices + NoticesOf(s, op)
    && s'.nextMachine == s.nextMachine + (if op.Create? then 1 else 0)
    && s'.nextSecret == s.nextSecret + (if op.Enroll? then 1 else 0)
    && (forall m :: m in s'.finalized <==> m in s.finalized || Acknowledges(s, op, m))
  }

  // Sockets.

  lemma RevokeSockets(s: Server, op: Op)
    requires Enabled(s, op) && op.Revoke?
    ensures SocketsAfter(s, op, Apply(s, op))
  {
  }

  lemma OrderSockets(s: Server, op: Op)
    requires Enabled(s, op) && op.Request? && Enrolled(s, op.machine)
    ensures SocketsAfter(s, op, Apply(s, op))
  {
    assert Apply(s, op).registry == s.registry.SendToMachine(op.machine, DecommissionOrder);
  }

  lemma RemovalSockets(s: Server, op: Op)
    requires Enabled(s, op) && op.Request? && !Enrolled(s, op.machine)
    ensures SocketsAfter(s, op, Apply(s, op))
  {
  }

  lemma PushSockets(s: Server, op: Op)
    requires Enabled(s, op) && op.Push?
    ensures SocketsAfter(s, op, Apply(s, op))
  {
  }

  lemma VerifiedSockets(s: Server, op: Op)
    requires Enabled(s, op) && op.Authenticate? && Presented(s, op.sid)
    ensures SocketsAfter(s, op, Apply(s, op))
  {
  }

  lemma RejectedSockets(s: Server, op: Op)
    requires Enabled(s, op) && op.Authenticate? && !Presented(s, op.sid)
    ensures SocketsAfter(s, op, Apply(s, op))
  {
  }

  lemma GreetSockets(s: Server, op: Op)
    requires Enabled(s, op) && op.Greet?
    ensures SocketsAfter(s, op, Apply(s, op))
  {
  }

  lemma HeartbeatSockets(s: Server, op: Op)
    requires Enabled(s, op) && op.Handle? && s.registry.sockets[op.sid].toServer[0].Heartbeat?
    ensures SocketsAfter(s, op, Apply(s, op))
  {
  }

  /** An acknowledgement that finalizes nothing is taken off its queue, and that is all. */
  lemma IdleAckSockets(s: Server, op: Op)
    requires Enabled(s, op) && op.Handle? && s.registry.sockets[op.sid].toServer[0].DecommissionAck?
    requires !Pending(s, s.registry.sockets[op.sid].machine)
    ensures SocketsAfter(s, op, Apply(s, op))
  {
  }

  lemma FinalAckSockets(s: Server, op: Op)
    requires Enabled(s, op) && op.Handle? && Acknowledges(s, op, s.registry.sockets[op.sid].machine)
    ensures SocketsAfter(s, op, Apply(s, op))
  {
    var socket := s.registry.sockets[op.sid];
    var taken := s.registry.Put(op.sid, socket.(toServer := socket.toServer[1..]));
    assert Apply(s, op).registry == taken.DisconnectMachine(socket.machine, DECOMMISSION_FINALIZED);
  }

  lemma QueueSockets(s: Server, op: Op)
    requires Enabled(s, op) && (op.Discard? || op.Arrive? || op.Take?)
    ensures SocketsAfter(s, op, Apply(s, op))
  {
  }

  lemma LinkSockets(s: Server, op: Op)
    requires Enabled(s, op) && (op.Disconnect? || op.Unlink? || op.Cut?)
    ensures SocketsAfter(s, op, Apply(s, op))
  {
  }

  lemma OtherSockets(s: Server, op: Op)
    requires Enabled(s, op) && (op.Create? || op.Enroll? || op.Upgrade?)
    ensures SocketsAfter(s, op, Apply(s, op))
  {
  }

  /** Every step writes to every socket exactly what the table says, and changes nothing else of it. */
  lemma WhatGoesOut(s: Server, op: Op)
    requires Enabled(s, op)
    ensures SocketsAfter(s, op, Apply(s, op))
  {
    match op
    case Revoke(_, _) => RevokeSockets(s, op);
    case Request(m, _) =>
      if Enrolled(s, m) {
        OrderSockets(s, op);
      } else {
        RemovalSockets(s, op);
      }
    case Push(_, _, _) => PushSockets(s, op);
    case Greet(_, _, _) => GreetSockets(s, op);
    case Authenticate(sid) =>
      if Presented(s, sid) {
        VerifiedSockets(s, op);
      } else {
        RejectedSockets(s, op);
      }
    case Handle(sid, _) =>
      if s.registry.sockets[sid].toServer[0].Heartbeat? {
        HeartbeatSockets(s, op);
      } else if Pending(s, s.registry.sockets[sid].machine) {
        FinalAckSockets(s, op);
      } else {
        IdleAckSockets(s, op);
      }
    case Discard(_) => QueueSockets(s, op);
    case Arrive(_, _) => QueueSockets(s, op);
    case Take(_) => QueueSockets(s, op);
    case Disconnect(_) => LinkSockets(s, op);
    case Unlink(_) => LinkSockets(s, op);
    case Cut(_) => LinkSockets(s, op);
    case _ => OtherSockets(s, op);
  }

  // Rows.

  lemma RequestRows(s: Server, op: Op)
    requires Enabled(s, op) && (op.Request? || op.Handle?)
    ensures RowsAfter(s, op, Apply(s, op))
  {
  }

  /** Every step does to every row, and announces, exactly what the table says. */
  lemma WhatIsStored(s: Server, op: Op)
    requires Enabled(s, op)
    ensures RowsAfter(s, op, Apply(s, op))
  {
    if op.Request? || op.Handle? {
      RequestRows(s, op);
    }
  }

  // Two messages that must arrive.

  /** The open socket that speaks for the machine ends up with the message last on its queue. */
  ghost predicate Delivered(s: Server, op: Op, m: MachineId, frame: Frame)
    requires Enabled(s, op)
  {
    m in s.registry.agents && s.registry.agents[m] in s.registry.sockets
      && s.registry.sockets[s.registry.agents[m]].open ==>
      var sid := s.registry.agents[m];
      sid in Apply(s, op).registry.sockets
      && Apply(s, op).registry.sockets[sid].toAgent == s.registry.sockets[sid].toAgent + [frame]
  }

  /** Asking for the removal of an enrolled machine tells its connected agent, every time. */
  lemma RequestIsDelivered(s: Server, m: MachineId, now: Millis)
    requires Enrolled(s, m)
    ensures Delivered(s, Request(m, now), m, DecommissionOrder)
  {
    WhatGoesOut(s, Request(m, now));
  }

  lemma PushIsDelivered(s: Server, m: MachineId, session: Option<SessionSnapshot>, now: Millis)
    requires m in s.rows
    ensures Delivered(s, Push(m, session, now), m, SessionUpdate(session, now))
  {
    WhatGoesOut(s, Push(m, session, now));
  }

  // Credentials over whole runs.

  /** The secret last handed out for `m`, unless it was revoked since. */
  ghost function LastIssued(ops: seq<Op>, m: MachineId): Option<Secret>
    requires Reached(ops).Some?
  {
    if ops == [] then None
    else
      var n := |ops| - 1;
      var s := Reached(ops[..n]).value;
      if ops[n] == Enroll(m) then Some(s.nextSecret)
      else if ops[n].Revoke? && ops[n].machine == m then None
      else LastIssued(ops[..n], m)
  }

  /** A row is revoked exactly when it has no credential because of it. */
  ghost predicate Credentialed(s: Server) {
    forall m :: m in s.rows && s.rows[m].credential.Some? ==> s.rows[m].revokedAt.None?
  }

  lemma {:induction false} AlwaysIssued(ops: seq<Op>, m: MachineId)
    requires Reached(ops).Some?
    ensures Credentialed(Reached(ops).value)
    ensures m in Reached(ops).value.rows ==> Reached(ops).value.rows[m].credential == LastIssued(ops, m)
    ensures m >= Reached(ops).value.nextMachine ==> LastIssued(ops, m).None?
  {
    if ops != [] {
      var n := |ops| - 1;
      var s := Reached(ops[..n]).value;
      AlwaysIssued(ops[..n], m);
      AlwaysBooks(ops[..n]);
      WhatIsStored(s, ops[n]);
    }
  }

  /**
    A secret authenticates a machine if and only if the machine exists, the secret is the last
    one handed out for it, and it was not revoked since.
   */
  lemma {:induction false} AuthenticatesIffLastIssued(ops: seq<Op>, m: MachineId, secret: Secret)
    requires Reached(ops).Some?
    ensures var s := Reached(ops).value;
            s.VerifyMachineCredential(m, secret) <==> m in s.rows && LastIssued(ops, m) == Some(secret)
  {
    AlwaysIssued(ops, m);
  }
}
