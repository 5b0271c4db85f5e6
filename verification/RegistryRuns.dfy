/**
  Which socket speaks for a machine, after any interleaving of connects, replacements, service
  calls that kick a machine, and close events, however late.
 */
module RegistryRuns {
  import opened Basics
  import opened Wire
  import opened Machines
  import opened MachineRuns

  /** `op` verifies the credential that `sid` presented for machine `m`, and registers it. */
  predicate Registers(s: Server, op: Op, sid: SocketId, m: MachineId)
    requires Enabled(s, op)
  {
    op == Authenticate(sid) && s.registry.sockets[sid].machine == m
    && s.VerifyMachineCredential(m, s.registry.sockets[sid].secret)
  }

  /** `op` revokes, removes or finalizes machine `m`. */
  predicate Kicks(s: Server, op: Op, m: MachineId)
    requires Enabled(s, op)
  {
    match op
    case Revoke(machine, _) => machine == m
    case Request(machine, _) => machine == m && m in s.rows && !s.rows[m].HasUsableCredential()
    case Handle(sid, _) =>
      s.registry.sockets[sid].machine == m && s.registry.sockets[sid].toServer[0].DecommissionAck?
      && s.IsPendingDecommission(m)
    case _ => false
  }

  /** `op` puts another socket in the place of `sid`, or removes it. */
  predicate Ends(s: Server, op: Op, sid: SocketId, m: MachineId)
    requires Enabled(s, op)
  {
    || (op.Authenticate? && Registers(s, op, op.sid, m))
    || Kicks(s, op, m)
    || (op == Disconnect(sid) && s.registry.sockets[sid].Listening())
  }

  predicate IsEntry(s: Server, m: MachineId, sid: SocketId) {
    m in s.registry.agents && s.registry.agents[m] == sid
  }

  /** The credential was verified, and the socket is open. */
  predicate Speaks(socket: Socket) {
    socket.open && !socket.phase.Upgraded?
  }

  /** Every entry is a registered socket of its machine, and the only one that can be open. */
  ghost predicate OneVoice(s: Server) {
    && (forall m :: m in s.registry.agents ==>
          s.registry.agents[m] in s.registry.sockets
          && s.registry.sockets[s.registry.agents[m]].machine == m
          && s.registry.sockets[s.registry.agents[m]].Listening())
    && (forall sid :: sid in s.registry.sockets && Speaks(s.registry.sockets[sid]) ==>
          IsEntry(s, s.registry.sockets[sid].machine, sid))
  }

  // One step.

  /** What a step does to a socket that it does not authenticate, kick or close. */
  predicate KeepsVoice(before: Socket, after: Socket) {
    && after.machine == before.machine
    && (before.Listening() ==> after.Listening())
    && (Speaks(after) ==> Speaks(before))
  }

  lemma PutKeepsOneVoice(s: Server, sid: SocketId, socket: Socket)
    requires OneVoice(s) && sid in s.registry.sockets && KeepsVoice(s.registry.sockets[sid], socket)
    ensures OneVoice(s.(registry := s.registry.Put(sid, socket)))
    ensures s.(registry := s.registry.Put(sid, socket)).registry.agents == s.registry.agents
  {
  }

  /** Kicking a machine takes its entry, and leaves the others. */
  lemma KickMoves(s: Server, m: MachineId, code: nat)
    requires OneVoice(s)
    ensures OneVoice(s.(registry := s.registry.DisconnectMachine(m, code)))
    ensures s.registry.DisconnectMachine(m, code).agents == s.registry.agents - {m}
  {
  }

  lemma VerifiedMoves(s: Server, sid: SocketId)
    requires OneVoice(s) && Enabled(s, Authenticate(sid))
    requires s.VerifyMachineCredential(s.registry.sockets[sid].machine, s.registry.sockets[sid].secret)
    ensures var s', m := s.Authenticate(sid), s.registry.sockets[sid].machine;
            OneVoice(s') && s'.registry.agents == s.registry.agents[m := sid]
  {
  }

  lemma AuthenticateMoves(s: Server, sid: SocketId)
    requires OneVoice(s) && Enabled(s, Authenticate(sid))
    ensures Moves(s, Authenticate(sid))
  {
    var socket := s.registry.sockets[sid];
    if s.VerifyMachineCredential(socket.machine, socket.secret) {
      VerifiedMoves(s, sid);
    } else {
      PutKeepsOneVoice(s, sid, socket.Closed(INVALID_CREDENTIAL).(phase := Gone));
    }
  }

  lemma DisconnectMoves(s: Server, sid: SocketId)
    requires OneVoice(s) && Enabled(s, Disconnect(sid))
    ensures OneVoice(s.Disconnected(sid))
    ensures forall m, other :: IsEntry(s.Disconnected(sid), m, other) <==>
              IsEntry(s, m, other) && !(other == sid && s.registry.sockets[sid].Listening())
  {
  }

  /** What one step does to the entry of every machine. */
  ghost predicate Moves(s: Server, op: Op)
    requires Enabled(s, op)
  {
    var s' := MachineRuns.Apply(s, op);
    && OneVoice(s')
    && forall m, sid :: IsEntry(s', m, sid) <==>
       Registers(s, op, sid, m) || (IsEntry(s, m, sid) && !Ends(s, op, sid, m))
  }

  lemma RequestMoves(s: Server, m: MachineId, now: Millis)
    requires OneVoice(s)
    ensures Moves(s, Request(m, now))
  {
    if m in s.rows && !s.rows[m].HasUsableCredential() {
      KickMoves(s, m, REMOVED);
    } else if m in s.rows && m in s.registry.agents {
      var sid := s.registry.agents[m];
      PutKeepsOneVoice(s, sid, s.registry.sockets[sid].Sent(DecommissionOrder));
    }
  }

  lemma TakenMoves(s: Server, sid: SocketId)
    requires OneVoice(s) && sid in s.registry.sockets && s.registry.sockets[sid].toServer != []
    ensures var socket := s.registry.sockets[sid];
            OneVoice(s.(registry := s.registry.Put(sid, socket.(toServer := socket.toServer[1..]))))
  {
    PutKeepsOneVoice(s, sid, s.registry.sockets[sid].(toServer := s.registry.sockets[sid].toServer[1..]));
  }

  lemma AckMoves(s: Server, sid: SocketId, now: Millis)
    requires OneVoice(s) && Enabled(s, Handle(sid, now)) && s.registry.sockets[sid].toServer[0].DecommissionAck?
    ensures Moves(s, Handle(sid, now))
  {
    var socket := s.registry.sockets[sid];
    TakenMoves(s, sid);
    var taken := s.(registry := s.registry.Put(sid, socket.(toServer := socket.toServer[1..])));
    KickMoves(taken, socket.machine, DECOMMISSION_FINALIZED);
  }

  lemma HeartbeatMoves(s: Server, sid: SocketId, now: Millis)
    requires OneVoice(s) && Enabled(s, Handle(sid, now)) && s.registry.sockets[sid].toServer[0].Heartbeat?
    ensures Moves(s, Handle(sid, now))
  {
    var socket := s.registry.sockets[sid];
    var rest := socket.(toServer := socket.toServer[1..]);
    TakenMoves(s, sid);
    PutKeepsOneVoice(s.(registry := s.registry.Put(sid, rest)), sid, rest.Sent(HeartbeatAck(now)));
  }

  lemma HandleMoves(s: Server, sid: SocketId, now: Millis)
    requires OneVoice(s) && Enabled(s, Handle(sid, now))
    ensures Moves(s, Handle(sid, now))
  {
    if s.registry.sockets[sid].toServer[0].DecommissionAck? {
      AckMoves(s, sid, now);
    } else {
      HeartbeatMoves(s, sid, now);
    }
  }

  /** Steps on the queues and the ends of one socket. */
  lemma TransportMoves(s: Server, op: Op)
    requires OneVoice(s) && Enabled(s, op)
    requires op.Greet? || op.Discard? || op.Arrive? || op.Take? || op.Unlink? || op.Cut?
    ensures Moves(s, op)
  {
    PutKeepsOneVoice(s, op.sid, MachineRuns.Apply(s, op).registry.sockets[op.sid]);
  }

  lemma PushMoves(s: Server, op: Op)
    requires OneVoice(s) && Enabled(s, op) && (op.Push? || op.Revoke?)
    ensures Moves(s, op)
  {
    if op.Revoke? {
      KickMoves(s, op.machine, INVALID_CREDENTIAL);
    } else if op.machine in s.registry.agents {
      var sid := s.registry.agents[op.machine];
      PutKeepsOneVoice(s, sid, s.registry.sockets[sid].Sent(SessionUpdate(op.session, op.now)));
    }
  }

  lemma ArrivalMoves(s: Server, op: Op)
    requires OneVoice(s) && Enabled(s, op) && (op.Create? || op.Enroll? || op.Upgrade?)
    ensures Moves(s, op)
  {
  }

  lemma StepMoves(s: Server, op: Op)
    requires OneVoice(s) && Enabled(s, op)
    ensures Moves(s, op)
  {
    match op
    case Authenticate(sid) => AuthenticateMoves(s, sid);
    case Disconnect(sid) => DisconnectMoves(s, sid);
    case Request(m, now) => RequestMoves(s, m, now);
    case Handle(sid, now) => HandleMoves(s, sid, now);
    case Revoke(_, _) => PushMoves(s, op);
    case Push(_, _, _) => PushMoves(s, op);
    case Create => ArrivalMoves(s, op);
    case Enroll(_) => ArrivalMoves(s, op);
    case Upgrade(_, _, _) => ArrivalMoves(s, op);
    case _ => TransportMoves(s, op);
  }

  lemma {:induction false} AlwaysOneVoice(ops: seq<Op>)
    requires Reached(ops).Some?
    ensures OneVoice(Reached(ops).value)
  {
    if ops != [] {
      AlwaysOneVoice(ops[..|ops| - 1]);
      StepMoves(Reached(ops[..|ops| - 1]).value, ops[|ops| - 1]);
    }
  }

  // Whole runs.

  ghost predicate RegistersAt(ops: seq<Op>, i: int, sid: SocketId, m: MachineId) {
    0 <= i < |ops| && Reached(ops[..i]).Some? && Enabled(Reached(ops[..i]).value, ops[i])
    && Registers(Reached(ops[..i]).value, ops[i], sid, m)
  }

  ghost predicate EndsAt(ops: seq<Op>, j: int, sid: SocketId, m: MachineId) {
    0 <= j < |ops| && Reached(ops[..j]).Some? && Enabled(Reached(ops[..j]).value, ops[j])
    && Ends(Reached(ops[..j]).value, ops[j], sid, m)
  }

  /** Step `i` registers `sid` for `m`, and nothing since replaced or removed it. */
  ghost predicate LastWord(ops: seq<Op>, i: int, sid: SocketId, m: MachineId) {
    RegistersAt(ops, i, sid, m) && forall j :: i < j < |ops| ==> !EndsAt(ops, j, sid, m)
  }

  lemma {:induction false} SameBefore(ops: seq<Op>, i: int, sid: SocketId, m: MachineId)
    requires 0 <= i < |ops| - 1
    ensures RegistersAt(ops[..|ops| - 1], i, sid, m) <==> RegistersAt(ops, i, sid, m)
    ensures EndsAt(ops[..|ops| - 1], i, sid, m) <==> EndsAt(ops, i, sid, m)
  {
    assert ops[..|ops| - 1][..i] == ops[..i];
  }

  /** An earlier last word stays the last if and only if the new step does not end it. */
  lemma {:induction false} LastWordStays(ops: seq<Op>, i: int, sid: SocketId, m: MachineId)
    requires 0 <= i < |ops| - 1
    ensures LastWord(ops, i, sid, m) <==>
            LastWord(ops[..|ops| - 1], i, sid, m) && !EndsAt(ops, |ops| - 1, sid, m)
  {
    var n := |ops| - 1;
    SameBefore(ops, i, sid, m);
    forall j | i < j < n ensures EndsAt(ops[..n], j, sid, m) <==> EndsAt(ops, j, sid, m) {
      SameBefore(ops, j, sid, m);
    }
  }

  /** How one more step moves the last word. */
  lemma {:induction false} LastWordStep(ops: seq<Op>, sid: SocketId, m: MachineId)
    requires ops != []
    ensures var n := |ops| - 1;
            (exists i :: LastWord(ops, i, sid, m)) <==>
              RegistersAt(ops, n, sid, m) || ((exists i :: LastWord(ops[..n], i, sid, m)) && !EndsAt(ops, n, sid, m))
  {
    var n := |ops| - 1;
    if i :| LastWord(ops, i, sid, m) && i < n {
      LastWordStays(ops, i, sid, m);
    }
    if RegistersAt(ops, n, sid, m) {
      assert LastWord(ops, n, sid, m);
    }
    if i :| LastWord(ops[..n], i, sid, m) && !EndsAt(ops, n, sid, m) {
      LastWordStays(ops, i, sid, m);
    }
  }

  /**
    The newest socket wins. After any run of the server and the network, the registry's entry for
    a machine is exactly the last socket that was verified for it and neither replaced, kicked
    nor closed since; a stale socket's late close event never evicts it.
   */
  lemma {:induction false} NewestSocketWins(ops: seq<Op>, m: MachineId, sid: SocketId)
    requires Reached(ops).Some?
    ensures IsEntry(Reached(ops).value, m, sid) <==> exists i :: LastWord(ops, i, sid, m)
  {
    if ops != [] {
      var n := |ops| - 1;
      NewestSocketWins(ops[..n], m, sid);
      AlwaysOneVoice(ops[..n]);
      StepMoves(Reached(ops[..n]).value, ops[n]);
      LastWordStep(ops, sid, m);
    }
  }

  /** At most one authenticated socket of a machine is open, and it is the registered one. */
  lemma {:induction false} OneOpenSocket(ops: seq<Op>, a: SocketId, b: SocketId)
    requires Reached(ops).Some?
    requires var sockets := Reached(ops).value.registry.sockets;
             && a in sockets && Speaks(sockets[a])
             && b in sockets && Speaks(sockets[b])
             && sockets[a].machine == sockets[b].machine
    ensures a == b && IsEntry(Reached(ops).value, Reached(ops).value.registry.sockets[a].machine, a)
  {
    AlwaysOneVoice(ops);
  }
}
