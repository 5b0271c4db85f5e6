/** What the removal protocol keeps true in every reachable world. */
module Safety {
  import opened Basics
  import opened Session
  import opened Storage
  import opened Wire
  import opened Machines
  import opened RunLoop
  import opened Protocol
  import MachineRuns
  import Enforcement
  import Registry
  import Client

  /** Removal of `m` was requested at some time: it is pending, or its row is gone for good. */
  predicate Fated(s: Server, m: MachineId) {
    m < s.nextMachine && (m !in s.rows || s.rows[m].Pending())
  }

  /** The state file does not make this computer manage itself as `m`. */
  predicate Released(disk: Option<AgentState>, m: MachineId) {
    disk.Some? && disk.value.credentials.Some? && disk.value.credentials.value.machineId == m ==>
      disk.value.decommissioned
  }

  predicate Issued(s: Server, c: Credentials) {
    c.machineId < s.nextMachine && c.machineSecret < s.nextSecret
  }

  /** Every row is of an issued machine, and every registered socket is of its machine. */
  ghost predicate Tidy(s: Server) {
    && (forall m :: m in s.rows ==> m < s.nextMachine)
    && (forall m :: m in s.registry.agents ==>
          s.registry.agents[m] in s.registry.sockets && s.registry.sockets[s.registry.agents[m]].machine == m)
  }

  ghost predicate ServerSafe(s: Server, disk: Option<AgentState>) {
    && Tidy(s)
    && (forall m :: m in s.rows && s.rows[m].credential.Some? ==> s.rows[m].credential.value < s.nextSecret)
    && (forall m :: m in s.finalized ==> m < s.nextMachine && m !in s.rows && Released(disk, m))
  }

  /** Messages on this socket are, or may yet be, delivered to the gateway. */
  predicate Deliverable(s: Server, socket: Socket) {
    socket.Listening() || (socket.phase.Upgraded? && s.VerifyMachineCredential(socket.machine, socket.secret))
  }

  predicate AckDeliverable(s: Server, socket: Socket) {
    Deliverable(s, socket) && DecommissionAck in socket.toServer
  }

  /** Orders and acknowledgements travel only for a fated machine, acknowledgements only once it is released. */
  predicate SocketSafe(s: Server, disk: Option<AgentState>, socket: Socket) {
    && Issued(s, Credentials(socket.machine, socket.secret))
    && (DecommissionOrder in socket.toAgent ==> Fated(s, socket.machine))
    && (DecommissionAck in socket.toServer ==> Fated(s, socket.machine))
    && (AckDeliverable(s, socket) ==> Released(disk, socket.machine))
  }

  ghost predicate SocketsSafe(s: Server, disk: Option<AgentState>) {
    forall sid :: sid in s.registry.sockets ==> SocketSafe(s, disk, s.registry.sockets[sid])
  }

  predicate DiskSafe(s: Server, disk: Option<AgentState>) {
    disk.Some? ==>
      && (disk.value.credentials.Some? ==> Issued(s, disk.value.credentials.value))
      && (disk.value.decommissioned ==>
            disk.value.credentials.Some? && Fated(s, disk.value.credentials.value.machineId))
  }

  ghost predicate EnrollingSafe(w: World) {
    w.enrolling.Some? ==>
      && w.process.None?
      && Issued(w.server, w.enrolling.value)
      && w.enrolling.value.machineId !in w.server.finalized
      && forall sid :: sid in w.server.registry.sockets ==>
           w.server.registry.sockets[sid].machine == w.enrolling.value.machineId ==>
             !AckDeliverable(w.server, w.server.registry.sockets[sid])
  }

  /** The process agrees with the file, and owes or sends acknowledgements only after the file says so. */
  predicate ProcessSafe(s: Server, d: AgentState, p: Process) {
    && p.Credential().Some? && p.Credential() == d.credentials
    && (p.commands > 0 || p.client.ack ==> p.loop.decommissioned)
    && (Decommission in p.events ==> Fated(s, p.Credential().value.machineId))
    && (p.client.link.On? ==>
          p.client.link.sid in s.registry.sockets
          && s.registry.sockets[p.client.link.sid].machine == p.Credential().value.machineId
          && s.registry.sockets[p.client.link.sid].secret == p.Credential().value.machineSecret)
    && match p.loop.stage
       case Selecting => p.loop.decommissioned == p.loop.state.decommissioned == d.decommissioned
       case Accepting =>
         !p.loop.decommissioned && p.loop.state.decommissioned && Fated(s, p.Credential().value.machineId)
       case Persisted => !p.loop.decommissioned && p.loop.state.decommissioned && d.decommissioned
  }

  ghost predicate Safe(w: World) {
    && ServerSafe(w.server, w.disk)
    && SocketsSafe(w.server, w.disk)
    && DiskSafe(w.server, w.disk)
    && EnrollingSafe(w)
    && (w.process.Some? ==> w.disk.Some? && ProcessSafe(w.server, w.disk.value, w.process.value))
  }

  // The server and the network.

  /** What a step of the server may do to a socket that was there before it. */
  predicate SocketStep(s: Server, s': Server, before: Socket, after: Socket) {
    && after.machine == before.machine && after.secret == before.secret
    && (DecommissionOrder in after.toAgent ==> DecommissionOrder in before.toAgent || Fated(s', before.machine))
    && (DecommissionAck in after.toServer ==> DecommissionAck in before.toServer)
    && (after.linked ==> before.linked)
    && (Deliverable(s', after) ==> Deliverable(s, before))
  }

  /** A server-side step that keeps every socket within `SocketStep` and no row unfated. */
  ghost predicate ServerStep(s: Server, s': Server) {
    && Tidy(s')
    && s.nextMachine <= s'.nextMachine && s.nextSecret <= s'.nextSecret
    && (forall m: MachineId :: Fated(s, m) ==> Fated(s', m))
    && (forall m: MachineId, secret :: s'.VerifyMachineCredential(m, secret) ==> s.VerifyMachineCredential(m, secret))
    && (forall sid :: sid in s'.registry.sockets ==>
          sid in s.registry.sockets && SocketStep(s, s', s.registry.sockets[sid], s'.registry.sockets[sid]))
    && (forall sid :: sid in s.registry.sockets ==> sid in s'.registry.sockets)
  }

  /** Steps of one socket that touch no row. */
  lemma PutStep(s: Server, sid: SocketId, socket: Socket)
    requires Tidy(s) && sid in s.registry.sockets && SocketStep(s, s, s.registry.sockets[sid], socket)
    ensures ServerStep(s, s.(registry := s.registry.Put(sid, socket)))
  {
  }

  lemma DisconnectMachineStep(s: Server, m: MachineId, code: nat)
    requires Tidy(s)
    ensures ServerStep(s, s.(registry := s.registry.DisconnectMachine(m, code)))
  {
  }

  /** A change of the rows alone that unfates nobody. */
  lemma RowStep(s: Server, s': Server)
    requires Tidy(s) && s'.registry == s.registry
    requires s.nextMachine <= s'.nextMachine && s.nextSecret <= s'.nextSecret
    requires forall m :: m in s'.rows ==> m < s'.nextMachine
    requires forall m: MachineId :: Fated(s, m) ==> Fated(s', m)
    requires forall m: MachineId, secret :: s'.VerifyMachineCredential(m, secret) ==>
               s.VerifyMachineCredential(m, secret)
    ensures ServerStep(s, s')
  {
  }

  lemma StepsCompose(s: Server, s': Server, s'': Server)
    requires ServerStep(s, s') && ServerStep(s', s'')
    ensures ServerStep(s, s'')
  {
  }

  lemma RegisterAgentStep(s: Server, m: MachineId, sid: SocketId)
    requires Tidy(s) && sid in s.registry.sockets && s.registry.sockets[sid].machine == m
    ensures ServerStep(s, s.(registry := s.registry.RegisterAgent(m, sid)))
  {
  }

  lemma AuthenticateStep(s: Server, sid: SocketId)
    requires Tidy(s) && sid in s.registry.sockets && s.registry.sockets[sid].phase.Upgraded?
    ensures ServerStep(s, s.Authenticate(sid))
  {
    var socket := s.registry.sockets[sid];
    if s.VerifyMachineCredential(socket.machine, socket.secret) {
      var registered := socket.(phase := Registered);
      PutStep(s, sid, registered);
      var s' := s.(registry := s.registry.Put(sid, registered));
      RegisterAgentStep(s', socket.machine, sid);
      StepsCompose(s, s', s.Authenticate(sid));
    } else {
      PutStep(s, sid, socket.Closed(INVALID_CREDENTIAL).(phase := Gone));
    }
  }

  lemma GreetStep(s: Server, sid: SocketId, session: Option<SessionSnapshot>, now: Millis)
    requires Tidy(s) && sid in s.registry.sockets && s.registry.sockets[sid].phase.Registered?
    ensures ServerStep(s, s.Greet(sid, session, now))
  {
    PutStep(s, sid, s.Greet(sid, session, now).registry.sockets[sid]);
  }

  lemma RevokeStep(s: Server, m: MachineId, now: Millis)
    requires Tidy(s) && m in s.rows
    ensures ServerStep(s, s.RevokeCredential(m, now))
  {
    var row := s.rows[m].(credential := None, revokedAt := Some(now));
    var s' := s.(rows := s.rows[m := row]);
    RowStep(s, s');
    DisconnectMachineStep(s', m, INVALID_CREDENTIAL);
    StepsCompose(s, s', s.RevokeCredential(m, now));
  }

  lemma DeleteStep(s: Server, m: MachineId, code: nat, notices: seq<Notice>, finalized: set<MachineId>)
    requires Tidy(s) && m in s.rows
    ensures ServerStep(s, s.(rows := s.rows - {m}, registry := s.registry.DisconnectMachine(m, code),
                             notices := notices, finalized := finalized))
  {
    var s' := s.(rows := s.rows - {m}, notices := notices, finalized := finalized);
    RowStep(s, s');
    DisconnectMachineStep(s', m, code);
  }

  lemma RequestStep(s: Server, m: MachineId, now: Millis)
    requires Tidy(s)
    ensures ServerStep(s, s.RequestDecommission(m, now).0)
  {
    if m in s.rows && !s.rows[m].HasUsableCredential() {
      DeleteStep(s, m, REMOVED, s.notices + [MachineRemoved(m)], s.finalized);
    } else if m in s.rows {
      var s' := s.MarkPending(m, now);
      RowStep(s, s');
      assert Fated(s', m);
      if m in s'.registry.agents {
        var sid := s'.registry.agents[m];
        PutStep(s', sid, s'.registry.sockets[sid].Sent(DecommissionOrder));
      }
      StepsCompose(s, s', s.RequestDecommission(m, now).0);
    }
  }

  lemma HandleStep(s: Server, sid: SocketId, now: Millis)
    requires MachineRuns.Enabled(s, MachineRuns.Handle(sid, now)) && Tidy(s)
    ensures ServerStep(s, s.HandleMessage(sid, now))
  {
    var socket := s.registry.sockets[sid];
    var rest := socket.(toServer := socket.toServer[1..]);
    assert forall m :: m in socket.toServer[1..] ==> m in socket.toServer;
    PutStep(s, sid, rest);
    var s' := s.(registry := s.registry.Put(sid, rest));
    if socket.toServer[0].Heartbeat? {
      PutStep(s', sid, rest.Sent(HeartbeatAck(now)));
      StepsCompose(s, s', s'.(registry := s'.registry.Put(sid, rest.Sent(HeartbeatAck(now)))));
    } else if s'.IsPendingDecommission(socket.machine) {
      DeleteStep(s', socket.machine, DECOMMISSION_FINALIZED, s'.notices + [MachineRemoved(socket.machine)],
                 s'.finalized + {socket.machine});
      StepsCompose(s, s', s'.FinalizeDecommission(socket.machine));
    }
  }

  lemma DisconnectedStep(s: Server, sid: SocketId)
    requires Tidy(s) && sid in s.registry.sockets
    ensures ServerStep(s, s.Disconnected(sid))
  {
    var socket := s.registry.sockets[sid];
    if socket.Listening() {
      var gone := socket.(phase := Gone, open := false);
      PutStep(s, sid, gone);
      var s' := s.(registry := s.registry.Put(sid, gone));
      StepsCompose(s, s', s.Disconnected(sid));
    } else {
      PutStep(s, sid, socket.(open := false));
    }
  }

  /** Messages reach a machine, are dropped without a listener, or are lost with the link. */
  lemma TransportStep(s: Server, op: MachineRuns.Op)
    requires (op.Push? || op.Discard? || op.Cut?) && MachineRuns.Enabled(s, op) && Tidy(s)
    ensures ServerStep(s, MachineRuns.Apply(s, op))
  {
    var sockets := s.registry.sockets;
    if op.Discard? {
      assert forall m :: m in sockets[op.sid].toServer[1..] ==> m in sockets[op.sid].toServer;
      PutStep(s, op.sid, sockets[op.sid].(toServer := sockets[op.sid].toServer[1..]));
    } else if op.Cut? {
      PutStep(s, op.sid, sockets[op.sid].(linked := false, toAgent := [], toServer := []));
    } else if op.machine in s.registry.agents {
      var sid := s.registry.agents[op.machine];
      PutStep(s, sid, sockets[sid].Sent(SessionUpdate(op.session, op.now)));
    }
  }

  lemma ServerSideStep(s: Server, op: MachineRuns.Op)
    requires ServerSide(op) && MachineRuns.Enabled(s, op) && Tidy(s)
    ensures ServerStep(s, MachineRuns.Apply(s, op))
  {
    match op
    case Create => RowStep(s, s.Create());
    case Revoke(m, now) => RevokeStep(s, m, now);
    case Request(m, now) => RequestStep(s, m, now);
    case Authenticate(sid) => AuthenticateStep(s, sid);
    case Greet(sid, session, now) => GreetStep(s, sid, session, now);
    case Handle(sid, now) => HandleStep(s, sid, now);
    case Disconnect(sid) => DisconnectedStep(s, sid);
    case _ => TransportStep(s, op);
  }

  /** Only an acknowledgement finalizes, and only its own machine. */
  lemma FinalizedBy(s: Server, op: MachineRuns.Op)
    requires ServerSide(op) && MachineRuns.Enabled(s, op)
    ensures var s' := MachineRuns.Apply(s, op);
            s'.finalized == s.finalized ||
            (op.Handle? && s.registry.sockets[op.sid].toServer[0] == DecommissionAck
             && s'.finalized == s.finalized + {s.registry.sockets[op.sid].machine}
             && s.registry.sockets[op.sid].machine !in s'.rows && s.registry.sockets[op.sid].machine in s.rows)
  {
  }

  /** No server-side step hands out a credential. */
  lemma CredentialsOnlyShrink(s: Server, op: MachineRuns.Op, m: MachineId)
    requires ServerSide(op) && MachineRuns.Enabled(s, op)
    requires m in MachineRuns.Apply(s, op).rows && MachineRuns.Apply(s, op).rows[m].credential.Some?
    ensures m in s.rows && s.rows[m].credential == MachineRuns.Apply(s, op).rows[m].credential
  {
  }

  lemma ServerStaysSafe(s: Server, op: MachineRuns.Op, disk: Option<AgentState>)
    requires ServerSide(op) && MachineRuns.Enabled(s, op) && ServerSafe(s, disk) && SocketsSafe(s, disk)
    ensures ServerSafe(MachineRuns.Apply(s, op), disk)
  {
    var s' := MachineRuns.Apply(s, op);
    ServerSideStep(s, op);
    FinalizedBy(s, op);
    if op.Handle? {
      assert SocketSafe(s, disk, s.registry.sockets[op.sid]);
    }
    forall m | m in s'.rows && s'.rows[m].credential.Some?
      ensures s'.rows[m].credential.value < s'.nextSecret
    {
      CredentialsOnlyShrink(s, op, m);
    }
    forall m | m in s'.finalized
      ensures m < s'.nextMachine && m !in s'.rows && Released(disk, m)
    {
      if m in s.finalized {
        RowsDoNotReturn(s, op, m);
      }
    }
  }

  lemma RowsDoNotReturn(s: Server, op: MachineRuns.Op, m: MachineId)
    requires ServerSide(op) && MachineRuns.Enabled(s, op) && m < s.nextMachine && m !in s.rows
    ensures m !in MachineRuns.Apply(s, op).rows
  {
  }

  lemma ServerStepKeepsProcess(s: Server, s': Server, d: AgentState, p: Process)
    requires ServerStep(s, s') && ProcessSafe(s, d, p)
    ensures ProcessSafe(s', d, p)
  {
  }

  lemma ServeKeepsSafe(w: World, op: MachineRuns.Op)
    requires Safe(w) && Enabled(w, Serve(op))
    ensures Safe(Apply(w, Serve(op)))
  {
    var s, s' := w.server, MachineRuns.Apply(w.server, op);
    ServerSideStep(s, op);
    ServerStaysSafe(s, op, w.disk);
    FinalizedBy(s, op);
    forall sid | sid in s'.registry.sockets
      ensures SocketSafe(s', w.disk, s'.registry.sockets[sid])
    {
      assert SocketSafe(s, w.disk, s.registry.sockets[sid]);
    }
    if w.process.Some? {
      ServerStepKeepsProcess(s, s', w.disk.value, w.process.value);
    }
  }

  // The computer.

  lemma EnrollmentKeepsSafe(w: World, a: Action)
    requires Safe(w) && Enabled(w, a) && Disciplined(w, a) && (a.Redeem? || a.SaveEnrollment? || a.AbandonEnrollment?)
    ensures Safe(Apply(w, a))
  {
    var w' := Apply(w, a);
    forall sid | sid in w'.server.registry.sockets
      ensures SocketSafe(w'.server, w'.disk, w'.server.registry.sockets[sid])
    {
      assert SocketSafe(w.server, w.disk, w.server.registry.sockets[sid]);
    }
  }

  lemma ConnectKeepsSafe(w: World, sid: SocketId)
    requires Safe(w) && Enabled(w, Connect(sid))
    ensures Safe(Apply(w, Connect(sid)))
  {
  }

  lemma ClientKeepsSafe(w: World, a: Action)
    requires Safe(w) && Enabled(w, a) && (a.TakeCommand? || a.SendHeartbeat? || a.LoseLink?)
    ensures Safe(Apply(w, a))
  {
    assert SocketSafe(w.server, w.disk, SocketOf(w));
  }

  /** A step on the sockets alone. */
  ghost predicate SocketsOnly(s: Server, s': Server) {
    s' == s.(registry := s'.registry) && ServerStep(s, s')
  }

  lemma SocketsOnlyKeepsSafe(w: World, s': Server)
    requires Safe(w) && SocketsOnly(w.server, s')
    ensures Safe(w.(server := s'))
  {
    forall sid | sid in s'.registry.sockets
      ensures SocketSafe(s', w.disk, s'.registry.sockets[sid])
    {
      assert SocketSafe(w.server, w.disk, w.server.registry.sockets[sid]);
    }
    if w.process.Some? {
      ServerStepKeepsProcess(w.server, s', w.disk.value, w.process.value);
    }
  }

  lemma UnlinkStep(s: Server, sid: SocketId)
    requires Tidy(s) && sid in s.registry.sockets
    ensures SocketsOnly(s, MachineRuns.Apply(s, MachineRuns.Unlink(sid)))
  {
    PutStep(s, sid, s.registry.sockets[sid].(linked := false));
  }

  lemma TakeStep(s: Server, sid: SocketId)
    requires Tidy(s) && MachineRuns.Enabled(s, MachineRuns.Take(sid))
    ensures SocketsOnly(s, MachineRuns.Apply(s, MachineRuns.Take(sid)))
  {
    var socket := s.registry.sockets[sid];
    assert forall f :: f in socket.toAgent[1..] ==> f in socket.toAgent;
    PutStep(s, sid, socket.(toAgent := socket.toAgent[1..]));
  }

  lemma ReceiveStep(w: World)
    requires Safe(w) && Enabled(w, Receive)
    ensures SocketsOnly(w.server, Apply(w, Receive).server)
  {
    var sid := w.process.value.client.link.sid;
    var taken := MachineRuns.Apply(w.server, MachineRuns.Take(sid));
    TakeStep(w.server, sid);
    if SocketOf(w).toAgent[0].Close? {
      UnlinkStep(taken, sid);
      StepsCompose(w.server, taken, Apply(w, Receive).server);
    }
  }

  /** The process a frame leaves behind agrees with the file as before. */
  lemma FrameKeepsProcessSafe(s: Server, d: AgentState, p: Process, frame: Frame)
    requires ProcessSafe(s, d, p) && (frame == DecommissionOrder ==> Fated(s, p.Credential().value.machineId))
    ensures ProcessSafe(s, d, Delivered(p, frame))
  {
  }

  lemma ReceiveKeepsSafe(w: World)
    requires Safe(w) && Enabled(w, Receive)
    ensures Safe(Apply(w, Receive))
  {
    var socket, s' := SocketOf(w), DoReceive(w).server;
    assert SocketSafe(w.server, w.disk, socket);
    assert socket.toAgent[0] in socket.toAgent;
    ReceiveStep(w);
    SocketsOnlyKeepsSafe(w, s');
    FrameKeepsProcessSafe(s', w.disk.value, w.process.value, socket.toAgent[0]);
  }

  lemma EventKeepsProcessSafe(w: World, mono: Millis)
    requires Safe(w) && Enabled(w, HandleEvent(mono))
    ensures var w' := Apply(w, HandleEvent(mono));
            w'.disk.Some? && ProcessSafe(w'.server, w'.disk.value, w'.process.value)
            && w'.disk.value.credentials == w.disk.value.credentials
            && w'.disk.value.decommissioned == w.disk.value.decommissioned
  {
    var events := w.process.value.events;
    assert forall e :: e in events[1..] ==> e in events;
    assert events[0] in events;
  }

  lemma LoopKeepsSafe(w: World, a: Action)
    requires Safe(w) && Enabled(w, a)
    requires a.HandleEvent? || a.PersistAccept? || a.SendAck? || a.Tick? || a.Boot?
    ensures Safe(Apply(w, a))
  {
    var w' := Apply(w, a);
    if a.HandleEvent? {
      EventKeepsProcessSafe(w, a.mono);
    }
    assert forall m :: Released(w.disk, m) ==> Released(w'.disk, m);
    forall sid | sid in w'.server.registry.sockets
      ensures SocketSafe(w'.server, w'.disk, w'.server.registry.sockets[sid])
    {
      assert SocketSafe(w.server, w.disk, w.server.registry.sockets[sid]);
    }
  }

  /** The process goes, and the state file is at most as managed as before. */
  lemma EndOfProcessKeepsSafe(w: World, w': World)
    requires Safe(w) && w.process.Some? && w'.process.None?
    requires w' == w.(process := None, disk := w'.disk, locked := w'.locked)
    requires w'.disk == w.disk || (LoopAt(w, Selecting) && w'.disk == Some(w.process.value.loop.state))
    ensures Safe(w')
  {
    assert forall m :: Released(w.disk, m) ==> Released(w'.disk, m);
    forall sid | sid in w'.server.registry.sockets
      ensures SocketSafe(w'.server, w'.disk, w'.server.registry.sockets[sid])
    {
      assert SocketSafe(w.server, w.disk, w.server.registry.sockets[sid]);
    }
  }

  lemma HaltKeepsSafe(w: World, a: Action)
    requires Safe(w) && Enabled(w, a) && (a.Crash? || a.Shutdown? || a.CrashInTick?)
    ensures Safe(Apply(w, a))
  {
    var s' := Apply(w, a).server;
    if Connected(w) {
      UnlinkStep(w.server, w.process.value.client.link.sid);
      SocketsOnlyKeepsSafe(w, s');
    }
    EndOfProcessKeepsSafe(w.(server := s'), Apply(w, a));
  }

  lemma StepKeepsSafe(w: World, a: Action)
    requires Safe(w) && Enabled(w, a) && Disciplined(w, a)
    ensures Safe(Apply(w, a))
  {
    match a
    case Serve(op) => ServeKeepsSafe(w, op);
    case Redeem(_) => EnrollmentKeepsSafe(w, a);
    case SaveEnrollment(_) => EnrollmentKeepsSafe(w, a);
    case AbandonEnrollment => EnrollmentKeepsSafe(w, a);
    case Crash => HaltKeepsSafe(w, a);
    case Shutdown => HaltKeepsSafe(w, a);
    case CrashInTick(_, _) => HaltKeepsSafe(w, a);
    case Connect(sid) => ConnectKeepsSafe(w, sid);
    case TakeCommand => ClientKeepsSafe(w, a);
    case SendHeartbeat => ClientKeepsSafe(w, a);
    case LoseLink => ClientKeepsSafe(w, a);
    case Receive => ReceiveKeepsSafe(w);
    case _ => LoopKeepsSafe(w, a);
  }

  lemma {:induction false} RunKeepsSafe(w: World, actions: seq<Action>)
    requires Safe(w) && From(w, actions).Some? && DisciplinedRun(w, actions)
    ensures Safe(From(w, actions).value)
  {
    if actions != [] {
      var n := |actions| - 1;
      RunKeepsSafe(w, actions[..n]);
      StepKeepsSafe(From(w, actions[..n]).value, actions[n]);
    }
  }

  lemma ReachableIsSafe(w: World)
    requires Reachable(w)
    ensures Safe(w)
  {
    var actions :| From(START, actions) == Some(w) && DisciplinedRun(START, actions);
    RunKeepsSafe(START, actions);
  }

  /**
    Decommission safety. Once an acknowledgement has deleted the row of `m`, the state file of
    the computer never holds the credential of `m` as a managed one, and a process that still
    runs as `m` no longer enforces.
   */
  lemma FinalizedMeansReleased(w: World, m: MachineId)
    requires Reachable(w) && m in w.server.finalized
    ensures m !in w.server.rows
    ensures w.disk.Some? && w.disk.value.credentials.Some? && w.disk.value.credentials.value.machineId == m ==>
              w.disk.value.decommissioned
    ensures w.process.Some? && w.process.value.Credential().Some?
            && w.process.value.Credential().value.machineId == m && LoopAt(w, Selecting) ==>
              w.process.value.loop.decommissioned
  {
    ReachableIsSafe(w);
  }

  lemma StepKeepsFinalized(w: World, a: Action)
    requires Enabled(w, a)
    ensures w.server.finalized <= Apply(w, a).server.finalized
  {
  }

  lemma StepLocks(w: World, a: Action)
    requires Safe(w) && Enabled(w, a)
    ensures Apply(w, a).locked == w.locked ||
            (w.disk.Some? && w.disk.value.credentials.Some? && !w.disk.value.decommissioned
             && Apply(w, a).locked == w.locked + [w.disk.value.credentials.value.machineId])
  {
  }

  /** The record of locks is complete: it grows with every tick that asks to lock, even one that is cut short. */
  lemma LocksAreRecorded(w: World, a: Action)
    requires Enabled(w, a)
    ensures (a.Tick? || a.CrashInTick?) && DisableUsage in Ticked(w.process.value.loop, a.os, a.mono).calls ==>
              Apply(w, a).locked == w.locked + [w.process.value.Credential().value.machineId]
    ensures !((a.Tick? || a.CrashInTick?) && DisableUsage in Ticked(w.process.value.loop, a.os, a.mono).calls) ==>
              Apply(w, a).locked == w.locked
  {
  }

  /** And from then on nothing locks the computer on behalf of `m`, in any later incarnation. */
  lemma {:induction false} FinalizedNeverLocksAgain(w: World, actions: seq<Action>, m: MachineId)
    requires Reachable(w) && m in w.server.finalized
    requires From(w, actions).Some? && DisciplinedRun(w, actions)
    ensures m in From(w, actions).value.server.finalized
    ensures var locked := From(w, actions).value.locked;
            |locked| >= |w.locked| && forall i :: |w.locked| <= i < |locked| ==> locked[i] != m
  {
    if actions != [] {
      var n := |actions| - 1;
      var before := From(w, actions[..n]).value;
      FinalizedNeverLocksAgain(w, actions[..n], m);
      ReachableIsSafe(w);
      RunKeepsSafe(w, actions[..n]);
      StepKeepsFinalized(before, actions[n]);
      StepLocks(before, actions[n]);
      assert Released(before.disk, m);
    }
  }

  /**
    Persist before acknowledging. Wherever the computer crashed, an acknowledgement exists in
    the command channel, in the connection task or on a socket that may still deliver it only if
    the state file already says `decommissioned`, or holds another machine's credential.
   */
  lemma AckImpliesDurable(w: World, sid: SocketId)
    requires Reachable(w)
    ensures w.process.Some? && (w.process.value.commands > 0 || w.process.value.client.ack) ==>
              w.disk.Some? && w.disk.value.decommissioned
    ensures sid in w.server.registry.sockets && AckDeliverable(w.server, w.server.registry.sockets[sid]) ==>
              Released(w.disk, w.server.registry.sockets[sid].machine)
  {
    ReachableIsSafe(w);
  }

  // A crash in the middle of a save.

  /** The steps that end by saving the state file. */
  predicate Saves(w: World, a: Action)
    requires Enabled(w, a)
  {
    match a
    case SaveEnrollment(_) => true
    case Shutdown => true
    case PersistAccept => true
    case HandleEvent(mono) => Handled(w.process.value.loop, w.process.value.events[0], mono).saved
    case Tick(os, mono) => Ticked(w.process.value.loop, os, mono).saved
    case _ => false
  }

  /** The process dies at stage `k` of the save that ends step `a`, and leaves these files behind. */
  function DiedSaving(w: World, a: Action, d: Directory, k: nat): World
    requires Enabled(w, a) && Saves(w, a) && k < 4
  {
    var done := Apply(w, a);
    var ended := if done.process.Some? then Halt(done) else done;
    ended.(disk := StateIn(SaveStages(d, done.disk.value)[k].main))
  }

  /**
    Whatever the stage, the world is one that whole steps lead to: before the rename as if the
    step had been cut short, after it as if the process had died right after the step.
   */
  lemma CrashInSave(w: World, a: Action, d: Directory, k: nat)
    requires Safe(w) && Enabled(w, a) && Saves(w, a) && StateIn(d.main) == w.disk && k < 4
    ensures k == 3 ==>
              DiedSaving(w, a, d, k) == (if Apply(w, a).process.Some? then Apply(Apply(w, a), Crash) else Apply(w, a))
    ensures k < 3 ==>
              DiedSaving(w, a, d, k) ==
              Apply(w, match a
                       case SaveEnrollment(_) => AbandonEnrollment
                       case Tick(os, mono) => CrashInTick(os, mono)
                       case _ => Crash)
  {
    CrashDuringSave(d, Apply(w, a).disk.value, k, 0);
  }

  // The standing assumption is exactly what safety needs.

  /** The failure: the row of `m` was deleted on an acknowledgement, and the computer is managed as `m`. */
  predicate Stranded(w: World, m: MachineId) {
    m in w.server.finalized && !Released(w.disk, m)
  }

  /** Redeeming a token of a machine that is not pending is always within the assumption. */
  lemma ManagedMachinesMayBeRedeemed(w: World, m: MachineId)
    requires Reachable(w) && m in w.server.rows && !w.server.IsPendingDecommission(m)
    ensures Disciplined(w, Redeem(m))
  {
    ReachableIsSafe(w);
  }

  lemma {:induction false} Extend(w: World, actions: seq<Action>, a: Action)
    requires From(w, actions).Some? && Enabled(From(w, actions).value, a)
    ensures From(w, actions + [a]) == Some(Apply(From(w, actions).value, a))
  {
    assert (actions + [a])[..|actions|] == actions;
  }

  /** A computer enrolled as machine 0 whose removal was requested while it was offline. */
  lemma PendingWhileOffline() returns (actions: seq<Action>, w: World)
    ensures From(START, actions) == Some(w) && DisciplinedRun(START, actions)
    ensures w.process.None? && w.enrolling.None?
    ensures w.disk == Some(AgentState(Some(Credentials(0, 0)), false, None, 0, 0))
    ensures w.server.rows == map[0 := Row(Some(0), None, Some(1))] && w.server.nextSecret == 1
    ensures w.server.registry == Registry.State(map[], map[])
  {
    actions, w := Then(START, [], START, Serve(MachineRuns.Create));
    assert w.server.rows == map[0 := NEW_ROW];
    actions, w := Then(START, actions, w, Redeem(0));
    assert w.server.rows == map[0 := Row(Some(0), None, None)];
    actions, w := Then(START, actions, w, SaveEnrollment(0));
    actions, w := Then(START, actions, w, Serve(MachineRuns.Request(0, 1)));
    assert w.server.rows == map[0 := Row(Some(0), None, Some(1))];
  }

  /** It comes online. */
  lemma CameOnline() returns (actions: seq<Action>, w: World)
    ensures From(START, actions) == Some(w) && DisciplinedRun(START, actions)
    ensures w.enrolling.None? && w.disk == Some(AgentState(Some(Credentials(0, 0)), false, None, 0, 0))
    ensures w.process == Some(Process(Booted(w.disk.value, 0), [], 0, Client.State(Client.On(0), false)))
    ensures w.server.rows == map[0 := Row(Some(0), None, Some(1))] && w.server.nextSecret == 1
    ensures w.server.registry == Registry.State(map[], map[0 := Socket(0, 0, Upgraded, true, true, [], [])])
  {
    actions, w := PendingWhileOffline();
    actions, w := Then(START, actions, w, Boot(0));
    actions, w := Then(START, actions, w, Connect(0));
    assert w.server.registry.sockets == map[0 := Socket(0, 0, Upgraded, true, true, [], [])];
  }

  /** It is sent the order. */
  lemma ToldOnConnect() returns (actions: seq<Action>, w: World)
    ensures From(START, actions) == Some(w) && DisciplinedRun(START, actions)
    ensures w.enrolling.None? && w.disk == Some(AgentState(Some(Credentials(0, 0)), false, None, 0, 0))
    ensures w.process == Some(Process(Booted(w.disk.value, 0), [], 0, Client.State(Client.On(0), false)))
    ensures w.server.rows == map[0 := Row(Some(0), None, Some(1))] && w.server.nextSecret == 1
    ensures 0 in w.server.registry.sockets
            && w.server.registry.sockets[0] == Socket(0, 0, Greeted, true, true, [DecommissionOrder], [])
  {
    actions, w := CameOnline();
    actions, w := Then(START, actions, w, Serve(MachineRuns.Authenticate(0)));
    assert 0 in w.server.registry.sockets
           && w.server.registry.sockets[0] == Socket(0, 0, Registered, true, true, [], []);
    actions, w := Then(START, actions, w, Serve(MachineRuns.Greet(0, None, 0)));
  }

  lemma ReceiveOrder(w: World)
    requires Enabled(w, Receive) && SocketOf(w).toAgent == [DecommissionOrder]
    ensures var w' := Apply(w, Receive);
            && w' == w.(server := w'.server, process := w'.process)
               && w'.server == w.server.(registry := w'.server.registry)
            && w'.process == Some(w.process.value.(events := w.process.value.events + [Decommission]))
            && Connected(w') && SocketOf(w') == SocketOf(w).(toAgent := [])
  {
  }

  /** It receives the order. */
  lemma ReceivedOrder() returns (actions: seq<Action>, w: World)
    ensures From(START, actions) == Some(w) && DisciplinedRun(START, actions)
    ensures w.enrolling.None? && w.process.Some? && w.process.value.events == [Decommission]
    ensures w.process.value.loop == Booted(AgentState(Some(Credentials(0, 0)), false, None, 0, 0), 0)
    ensures w.process.value.commands == 0 && w.process.value.client == Client.State(Client.On(0), false)
    ensures w.server.rows == map[0 := Row(Some(0), None, Some(1))] && w.server.nextSecret == 1
    ensures 0 in w.server.registry.sockets && w.server.registry.sockets[0] == Socket(0, 0, Greeted, true, true, [], [])
  {
    var told;
    actions, told := ToldOnConnect();
    actions, w := Then(START, actions, told, Receive);
    ReceiveOrder(told);
  }

  /** It persists the order and owes an acknowledgement. */
  lemma PersistedOrder() returns (actions: seq<Action>, w: World)
    ensures From(START, actions) == Some(w) && DisciplinedRun(START, actions)
    ensures w.enrolling.None? && w.disk.Some? && w.disk.value.credentials == Some(Credentials(0, 0))
    ensures w.disk.value.decommissioned && LoopAt(w, Selecting)
    ensures w.process.value.commands == 1 && w.process.value.client == Client.State(Client.On(0), false)
    ensures w.server.rows == map[0 := Row(Some(0), None, Some(1))] && w.server.nextSecret == 1
    ensures 0 in w.server.registry.sockets && w.server.registry.sockets[0] == Socket(0, 0, Greeted, true, true, [], [])
  {
    var received;
    actions, received := ReceivedOrder();
    w := received;
    actions, w := Then(START, actions, w, HandleEvent(0));
    actions, w := Then(START, actions, w, PersistAccept);
    actions, w := Then(START, actions, w, SendAck);
    AcceptThree(received, w);
  }

  /** Handling the order, persisting it and queueing the acknowledgement, in one. */
  lemma AcceptThree(w: World, w': World)
    requires w.process.Some? && w.process.value.events == [Decommission] && w.process.value.loop.stage.Selecting?
    requires !w.process.value.loop.decommissioned
    requires w' == Apply(Apply(Apply(w, HandleEvent(0)), PersistAccept), SendAck)
    ensures w'.server == w.server && w'.enrolling == w.enrolling && LoopAt(w', Selecting)
    ensures w'.disk == Some(w.process.value.loop.state.(decommissioned := true, session := None))
    ensures w'.process.value.commands == w.process.value.commands + 1
    ensures w'.process.value.client == w.process.value.client
  {
  }

  /** It acknowledges; the acknowledgement is still on its way. */
  lemma AckOnItsWay() returns (actions: seq<Action>, w: World)
    ensures From(START, actions) == Some(w) && DisciplinedRun(START, actions)
    ensures w.process.Some? && Connected(w) && w.process.value.client.link.sid == 0 && w.enrolling.None?
    ensures w.disk.Some? && w.disk.value.credentials == Some(Credentials(0, 0)) && w.disk.value.decommissioned
    ensures w.server.rows == map[0 := Row(Some(0), None, Some(1))] && w.server.nextSecret == 1
    ensures 0 in w.server.registry.sockets
            && w.server.registry.sockets[0] == Socket(0, 0, Greeted, true, true, [], [DecommissionAck])
  {
    actions, w := PersistedOrder();
    actions, w := Then(START, actions, w, TakeCommand);
    assert w.server.registry.sockets[0].toServer == [DecommissionAck];
    assert 0 in w.server.registry.sockets
           && w.server.registry.sockets[0] == Socket(0, 0, Greeted, true, true, [], [DecommissionAck]);
  }

  /** The gateway reads a socket up to the acknowledgement on it, and deletes the row. */
  lemma {:induction false} DeliverAck(start: World, actions: seq<Action>, w: World, sid: SocketId)
    returns (longer: seq<Action>, w': World)
    requires From(start, actions) == Some(w) && DisciplinedRun(start, actions) && sid in w.server.registry.sockets
    requires w.server.registry.sockets[sid].Listening() && DecommissionAck in w.server.registry.sockets[sid].toServer
    requires w.server.IsPendingDecommission(w.server.registry.sockets[sid].machine)
    ensures From(start, longer) == Some(w') && w'.disk == w.disk
    ensures w.server.registry.sockets[sid].machine in w'.server.finalized
    ensures DisciplinedRun(start, longer)
    decreases |w.server.registry.sockets[sid].toServer|
  {
    var socket := w.server.registry.sockets[sid];
    longer, w' := Then(start, actions, w, Serve(MachineRuns.Handle(sid, 0)));
    if socket.toServer[0].Heartbeat? {
      longer, w' := DeliverAck(start, longer, w', sid);
    }
  }

  /**
    With an old acknowledgement in flight, redeeming a token of that machine can strand the
    computer, with no further redemption: the new enrolment is saved, then the old
    acknowledgement arrives.
   */
  lemma RedeemingCanStrand(w: World, m: MachineId) returns (actions: seq<Action>)
    requires Safe(w) && Enabled(w, Redeem(m)) && AckInFlight(w.server, m)
    ensures var w' := Apply(w, Redeem(m));
            From(w', actions).Some? && DisciplinedRun(w', actions) && Stranded(From(w', actions).value, m)
  {
    var sid :| sid in w.server.registry.sockets && w.server.registry.sockets[sid].machine == m
      && w.server.registry.sockets[sid].Listening() && DecommissionAck in w.server.registry.sockets[sid].toServer;
    assert SocketSafe(w.server, w.disk, w.server.registry.sockets[sid]);
    var start := Apply(w, Redeem(m));
    var last;
    actions, last := Then(start, [], start, SaveEnrollment(0));
    actions, last := DeliverAck(start, actions, last, sid);
  }

  /**
    So the assumption is exact: after a redemption, disciplined steps can strand the computer as
    that machine if and only if an acknowledgement of it was in flight.
   */
  lemma RedeemIsSafeIff(w: World, m: MachineId)
    requires Reachable(w) && Enabled(w, Redeem(m))
    ensures AckInFlight(w.server, m) <==>
            exists actions :: var w' := Apply(w, Redeem(m));
              From(w', actions).Some? && DisciplinedRun(w', actions) && Stranded(From(w', actions).value, m)
  {
    ReachableIsSafe(w);
    var w' := Apply(w, Redeem(m));
    if AckInFlight(w.server, m) {
      var actions := RedeemingCanStrand(w, m);
      assert Stranded(From(w', actions).value, m);
    } else {
      forall actions | From(w', actions).Some? && DisciplinedRun(w', actions)
        ensures !Stranded(From(w', actions).value, m)
      {
        StepKeepsSafe(w, Redeem(m));
        RunKeepsSafe(w', actions);
      }
    }
  }

  /** And the situation does arise, in a disciplined run. */
  lemma AckCanBeInFlight() returns (w: World)
    ensures Reachable(w) && Enabled(w, Redeem(0)) && AckInFlight(w.server, 0)
  {
    var actions;
    actions, w := AckOnItsWay();
    actions, w := Then(START, actions, w, Crash);
    assert w.server.registry.sockets[0].machine == 0;
  }

  lemma Then(start: World, actions: seq<Action>, w: World, a: Action) returns (longer: seq<Action>, w': World)
    requires From(start, actions) == Some(w) && DisciplinedRun(start, actions) && Enabled(w, a) && Disciplined(w, a)
    ensures DisciplinedRun(start, longer)
    ensures From(start, longer) == Some(w') && w' == Apply(w, a) && longer == actions + [a]
  {
    longer, w' := actions + [a], Apply(w, a);
    Extend(start, actions, a);
  }
}
