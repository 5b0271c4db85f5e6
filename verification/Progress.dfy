/**
  Removal never deadlocks. Acknowledgements can be lost, so finalization is not inevitable; but
  from every reachable world it stays within reach, by a schedule that no crash is part of.
 */
module Progress {
  import opened Basics
  import opened Storage
  import opened Wire
  import opened Machines
  import opened RunLoop
  import opened Protocol
  import opened Safety
  import MachineRuns
  import Client

  // What keeps the agent trying.

  predicate IsFinalClose(frame: Frame) {
    frame == Close(DECOMMISSION_FINALIZED) || frame == Close(INVALID_CREDENTIAL)
  }

  /** Nobody is told to stop trying while the credential they hold is good. */
  predicate HonestSocket(s: Server, socket: Socket) {
    (exists frame :: frame in socket.toAgent && IsFinalClose(frame)) ==>
      !s.VerifyMachineCredential(socket.machine, socket.secret)
  }

  ghost predicate HonestSockets(s: Server) {
    forall sid :: sid in s.registry.sockets ==> HonestSocket(s, s.registry.sockets[sid])
  }

  /** A decommissioned process still owes its acknowledgement, until it has reason to stop. */
  predicate Persistent(s: Server, p: Process) {
    && (p.loop.decommissioned ==> p.commands > 0 || p.client.ack)
    && (p.client.link.Stopped? && p.Credential().Some? ==>
          !s.VerifyMachineCredential(p.Credential().value.machineId, p.Credential().value.machineSecret))
  }

  ghost predicate Live(w: World) {
    HonestSockets(w.server) && (w.process.Some? ==> Persistent(w.server, w.process.value))
  }

  /** Where a final close frame on a socket can come from. */
  lemma ServerStaysHonest(s: Server, op: MachineRuns.Op)
    requires ServerSide(op) && MachineRuns.Enabled(s, op) && Tidy(s) && HonestSockets(s)
    ensures HonestSockets(MachineRuns.Apply(s, op))
  {
    var s' := MachineRuns.Apply(s, op);
    ServerSideStep(s, op);
    forall sid | sid in s'.registry.sockets
      ensures HonestSocket(s', s'.registry.sockets[sid])
    {
      assert HonestSocket(s, s.registry.sockets[sid]);
      FinalClosesAreEarned(s, op, sid);
    }
  }

  /** Final close frames on a socket are old, or the credential it presented is no longer good. */
  predicate Earned(s': Server, before: Socket, after: Socket) {
    forall frame :: frame in after.toAgent && IsFinalClose(frame) ==>
      frame in before.toAgent || !s'.VerifyMachineCredential(before.machine, before.secret)
  }

  lemma KicksAreEarned(s: Server, op: MachineRuns.Op, sid: SocketId)
    requires (op.Handle? || op.Revoke?) && MachineRuns.Enabled(s, op) && Tidy(s) && sid in s.registry.sockets
    ensures var s' := MachineRuns.Apply(s, op);
            sid in s'.registry.sockets && Earned(s', s.registry.sockets[sid], s'.registry.sockets[sid])
  {
  }

  lemma RequestsAreEarned(s: Server, m: MachineId, now: Millis, sid: SocketId)
    requires Tidy(s) && sid in s.registry.sockets
    ensures var s' := s.RequestDecommission(m, now).0;
            sid in s'.registry.sockets && Earned(s', s.registry.sockets[sid], s'.registry.sockets[sid])
  {
  }

  lemma FinalClosesAreEarned(s: Server, op: MachineRuns.Op, sid: SocketId)
    requires ServerSide(op) && MachineRuns.Enabled(s, op) && Tidy(s) && sid in s.registry.sockets
    ensures var s' := MachineRuns.Apply(s, op);
            sid in s'.registry.sockets && Earned(s', s.registry.sockets[sid], s'.registry.sockets[sid])
  {
    if op.Handle? || op.Revoke? {
      KicksAreEarned(s, op, sid);
    } else if op.Request? {
      RequestsAreEarned(s, op.machine, op.now, sid);
    }
  }

  lemma PutKeepsHonest(s: Server, sid: SocketId, after: Socket)
    requires HonestSockets(s) && sid in s.registry.sockets
    requires after == s.registry.sockets[sid].(linked := after.linked, toAgent := after.toAgent)
    requires forall f :: f in after.toAgent ==> f in s.registry.sockets[sid].toAgent
    ensures HonestSockets(s.(registry := s.registry.Put(sid, after)))
  {
    assert HonestSocket(s, s.registry.sockets[sid]);
  }

  lemma TakeKeepsHonest(s: Server, sid: SocketId)
    requires HonestSockets(s) && MachineRuns.Enabled(s, MachineRuns.Take(sid))
    ensures HonestSockets(MachineRuns.Apply(s, MachineRuns.Take(sid)))
  {
    var socket := s.registry.sockets[sid];
    assert forall f :: f in socket.toAgent[1..] ==> f in socket.toAgent;
    PutKeepsHonest(s, sid, socket.(toAgent := socket.toAgent[1..]));
  }

  lemma ReceiveKeepsHonest(w: World)
    requires HonestSockets(w.server) && Enabled(w, Receive)
    ensures HonestSockets(DoReceive(w).server)
  {
    var sid := w.process.value.client.link.sid;
    TakeKeepsHonest(w.server, sid);
    var taken := MachineRuns.Apply(w.server, MachineRuns.Take(sid));
    PutKeepsHonest(taken, sid, taken.registry.sockets[sid].(linked := false));
  }

  lemma ReceiveKeepsLive(w: World)
    requires Safe(w) && Live(w) && Enabled(w, Receive)
    ensures Live(Apply(w, Receive))
  {
    ReceiveKeepsHonest(w);
    var socket := SocketOf(w);
    assert HonestSocket(w.server, socket);
    assert socket.toAgent[0] in socket.toAgent;
  }

  lemma RedeemKeepsLive(w: World, m: MachineId)
    requires Safe(w) && Live(w) && Enabled(w, Redeem(m))
    ensures Live(Apply(w, Redeem(m)))
  {
    forall sid | sid in w.server.registry.sockets
      ensures HonestSocket(Apply(w, Redeem(m)).server, w.server.registry.sockets[sid])
    {
      assert HonestSocket(w.server, w.server.registry.sockets[sid]);
      assert SocketSafe(w.server, w.disk, w.server.registry.sockets[sid]);
    }
  }

  lemma ClientKeepsLive(w: World, a: Action)
    requires Safe(w) && Live(w) && Enabled(w, a)
    requires a.Connect? || a.TakeCommand? || a.SendHeartbeat? || a.LoseLink?
    ensures Live(Apply(w, a))
  {
  }

  lemma LocalKeepsLive(w: World, a: Action)
    requires Safe(w) && Live(w) && Enabled(w, a)
    requires a.HandleEvent? || a.PersistAccept? || a.SendAck? || a.Tick? || a.Boot? || a.SaveEnrollment?
             || a.AbandonEnrollment?
    ensures Live(Apply(w, a))
  {
  }

  lemma HaltKeepsLive(w: World, a: Action)
    requires Safe(w) && Live(w) && Enabled(w, a) && (a.Crash? || a.Shutdown? || a.CrashInTick?)
    ensures Live(Apply(w, a))
  {
    if Connected(w) {
      PutKeepsHonest(w.server, w.process.value.client.link.sid, SocketOf(w).(linked := false));
    }
  }

  lemma StepKeepsLive(w: World, a: Action)
    requires Safe(w) && Live(w) && Enabled(w, a)
    ensures Live(Apply(w, a))
  {
    match a
    case Serve(op) =>
      ServerStaysHonest(w.server, op);
      ServerSideStep(w.server, op);
    case Receive => ReceiveKeepsLive(w);
    case Redeem(m) => RedeemKeepsLive(w, m);
    case Connect(_) => ClientKeepsLive(w, a);
    case TakeCommand => ClientKeepsLive(w, a);
    case SendHeartbeat => ClientKeepsLive(w, a);
    case LoseLink => ClientKeepsLive(w, a);
    case Crash => HaltKeepsLive(w, a);
    case Shutdown => HaltKeepsLive(w, a);
    case CrashInTick(_, _) => HaltKeepsLive(w, a);
    case _ => LocalKeepsLive(w, a);
  }

  lemma {:induction false} RunKeepsLive(w: World, actions: seq<Action>)
    requires Safe(w) && Live(w) && From(w, actions).Some? && DisciplinedRun(w, actions)
    ensures Live(From(w, actions).value)
  {
    if actions != [] {
      var n := |actions| - 1;
      RunKeepsLive(w, actions[..n]);
      RunKeepsSafe(w, actions[..n]);
      StepKeepsLive(From(w, actions[..n]).value, actions[n]);
    }
  }

  // The schedule.

  function Me(w: World): Credentials
    requires w.disk.Some? && w.disk.value.credentials.Some?
  {
    w.disk.value.credentials.value
  }

  /**
    Machine `m` is being removed: its removal is pending and the computer holds its good
    credential, or an acknowledgement has already deleted its row.
   */
  predicate BeingRemoved(w: World, m: MachineId) {
    && w.enrolling.None? && w.disk.Some? && w.disk.value.credentials.Some? && Me(w).machineId == m
    && (m in w.server.finalized ||
        (w.server.IsPendingDecommission(m) && w.server.VerifyMachineCredential(m, Me(w).machineSecret)))
  }

  /** The row is gone, the file says so, the agent is inert and its connection task has ended. */
  predicate Done(w: World, m: MachineId) {
    && m in w.server.finalized && m !in w.server.rows
    && w.disk.Some? && w.disk.value.decommissioned
    && LoopAt(w, Selecting) && w.process.value.loop.decommissioned && w.process.value.client.link.Stopped?
  }

  ghost predicate Underway(w: World, m: MachineId) {
    Safe(w) && Live(w) && BeingRemoved(w, m)
  }

  ghost predicate Above(used: set<SocketId>, sid: SocketId) {
    forall u :: u in used ==> u < sid
  }

  lemma {:induction false} SomeAbove(used: set<SocketId>)
    ensures exists sid: SocketId :: Above(used, sid)
  {
    if used == {} {
      assert Above(used, 0);
    } else {
      var u :| u in used;
      SomeAbove(used - {u});
      var sid: SocketId :| Above(used - {u}, sid);
      var above := if u < sid then sid else u + 1;
      forall v | v in used ensures v < above {
        assert v == u || v in used - {u};
      }
      assert Above(used, above);
    }
  }

  ghost function Fresh(used: set<SocketId>): (sid: SocketId)
    ensures sid !in used
  {
    SomeAbove(used);
    var sid: SocketId :| Above(used, sid);
    sid
  }

  /** What the cooperating parties do next. Only a connection that can no longer help is cut. */
  ghost function Next(w: World, m: MachineId): Action {
    if w.process.None? then Boot(0)
    else
      var p := w.process.value;
      match p.loop.stage
      case Accepting => PersistAccept
      case Persisted => SendAck
      case Selecting =>
        if p.events != [] then HandleEvent(0)
        else if !Connected(w) then Connect(Fresh(w.server.registry.sockets.Keys))
        else
          var sid, socket := p.client.link.sid, SocketOf(w);
          if !socket.linked then LoseLink
          else if p.commands > 0 then TakeCommand
          else if socket.toAgent != [] then Receive
          else if socket.phase.Upgraded? && socket.open then Serve(MachineRuns.Authenticate(sid))
          else if socket.phase.Registered? then Serve(MachineRuns.Greet(sid, None, 0))
          else if socket.Listening() && socket.toServer != [] then Serve(MachineRuns.Handle(sid, 0))
          else Serve(MachineRuns.Cut(sid))
  }

  // The measure.

  function FirstClose(frames: seq<Frame>): Option<nat> {
    if frames == [] then None
    else if frames[0].Close? then Some(frames[0].code)
    else FirstClose(frames[1..])
  }

  lemma {:induction false} FirstCloseAppend(frames: seq<Frame>, frame: Frame)
    ensures FirstClose(frames + [frame]) ==
            if FirstClose(frames).Some? then FirstClose(frames)
            else if frame.Close? then Some(frame.code) else None
  {
    if frames != [] {
      assert (frames + [frame])[1..] == frames[1..] + [frame];
      FirstCloseAppend(frames[1..], frame);
    }
  }

  /** The current connection will see the removal through. */
  predicate Hopeful(w: World, m: MachineId)
    requires Connected(w)
  {
    var p, socket := w.process.value, SocketOf(w);
    && socket.linked
    && if m in w.server.rows then
         && socket.open && !socket.phase.Gone? && FirstClose(socket.toAgent).None?
         && if p.loop.decommissioned then p.commands > 0 || DecommissionAck in socket.toServer
            else !p.loop.stage.Selecting? || Decommission in p.events || DecommissionOrder in socket.toAgent
                 || socket.phase.Upgraded? || socket.phase.Registered?
       else
         || FirstClose(socket.toAgent) == Some(DECOMMISSION_FINALIZED)
         || FirstClose(socket.toAgent) == Some(INVALID_CREDENTIAL)
         || (FirstClose(socket.toAgent).None? && socket.phase.Upgraded? && socket.open)
  }

  function Distance(w: World, m: MachineId): nat {
    if w.process.None? then 3
    else match w.process.value.client.link
      case Stopped => 0
      case Idle => 1
      case On(_) => if Connected(w) && Hopeful(w, m) then 0 else 2
  }

  function SocketWork(socket: Socket): nat {
    (if socket.linked then 1 else 0)
    + (if socket.phase.Upgraded? && socket.open then 12 else if socket.phase.Registered? then 6 else 0)
    + 3 * |socket.toAgent| + 5 * |socket.toServer|
  }

  function Work(w: World): nat {
    if w.process.None? then 0
    else
      var p := w.process.value;
      (match p.loop.stage
       case Selecting => if p.loop.decommissioned then 0 else 20
       case Accepting => 14
       case Persisted => 7)
      + 2 * |p.events| + 6 * p.commands
      + (if Connected(w) then SocketWork(SocketOf(w)) else 0)
  }

  function RowLeft(w: World, m: MachineId): nat {
    if m in w.server.rows then 1 else 0
  }

  /** Lexicographically: the row, the prospects of the connection, the work left on it. */
  predicate Closer(w': World, w: World, m: MachineId) {
    || RowLeft(w', m) < RowLeft(w, m)
    || (RowLeft(w', m) == RowLeft(w, m) && Distance(w', m) < Distance(w, m))
    || (RowLeft(w', m) == RowLeft(w, m) && Distance(w', m) == Distance(w, m) && Work(w') < Work(w))
  }

  // Each step of the schedule is possible, keeps the removal underway, and comes closer.

  predicate Disruptive(a: Action) {
    a.Crash? || a.CrashInTick? || a.Shutdown? || a.Redeem?
  }

  ghost predicate Advances(w: World, m: MachineId, a: Action) {
    Enabled(w, a) && !Disruptive(a)
    && Underway(Apply(w, a), m) && Closer(Apply(w, a), w, m)
  }

  lemma StaysUnderway(w: World, m: MachineId, a: Action)
    requires Underway(w, m) && Enabled(w, a) && !a.Redeem?
    requires BeingRemoved(Apply(w, a), m)
    ensures Underway(Apply(w, a), m)
  {
    StepKeepsSafe(w, a);
    StepKeepsLive(w, a);
  }

  lemma BootAdvances(w: World, m: MachineId)
    requires Underway(w, m) && w.process.None?
    ensures Advances(w, m, Next(w, m))
  {
    StaysUnderway(w, m, Boot(0));
  }

  lemma LoopAdvances(w: World, m: MachineId)
    requires Underway(w, m) && w.process.Some?
    requires !w.process.value.loop.stage.Selecting? || w.process.value.events != []
    ensures Advances(w, m, Next(w, m))
  {
    var a := Next(w, m);
    if a.HandleEvent? {
      var events := w.process.value.events;
      assert forall e :: e in events ==> e == events[0] || e in events[1..];
    }
    StaysUnderway(w, m, a);
  }

  lemma ConnectAdvances(w: World, m: MachineId)
    requires Underway(w, m) && LoopAt(w, Selecting) && w.process.value.events == []
    requires w.process.value.client.link.Idle?
    ensures Advances(w, m, Next(w, m))
  {
    StaysUnderway(w, m, Next(w, m));
  }

  /** Nothing is left to do but on the connection. */
  ghost predicate Engaged(w: World, m: MachineId) {
    Underway(w, m) && LoopAt(w, Selecting) && w.process.value.events == [] && Connected(w)
  }

  lemma LoseLinkAdvances(w: World, m: MachineId)
    requires Engaged(w, m) && !SocketOf(w).linked
    ensures Advances(w, m, Next(w, m))
  {
    StaysUnderway(w, m, LoseLink);
  }

  lemma TakeCommandAdvances(w: World, m: MachineId)
    requires Engaged(w, m) && SocketOf(w).linked && w.process.value.commands > 0
    ensures Advances(w, m, Next(w, m))
  {
    StaysUnderway(w, m, TakeCommand);
    var w' := Apply(w, TakeCommand);
    assert SocketOf(w').toServer == SocketOf(w).toServer + [DecommissionAck];
  }

  lemma ReceiveCloseAdvances(w: World, m: MachineId)
    requires Engaged(w, m) && SocketOf(w).linked && w.process.value.commands == 0
    requires SocketOf(w).toAgent != [] && SocketOf(w).toAgent[0].Close?
    ensures BeingRemoved(Apply(w, Receive), m) && Closer(Apply(w, Receive), w, m)
  {
    var socket := SocketOf(w);
    assert HonestSocket(w.server, socket);
    assert socket.toAgent[0] in socket.toAgent;
  }

  lemma ReceiveMessageAdvances(w: World, m: MachineId)
    requires Engaged(w, m) && SocketOf(w).linked && w.process.value.commands == 0
    requires SocketOf(w).toAgent != [] && !SocketOf(w).toAgent[0].Close?
    ensures BeingRemoved(Apply(w, Receive), m) && Closer(Apply(w, Receive), w, m)
  {
    var socket := SocketOf(w);
    assert forall f :: f in socket.toAgent ==> f == socket.toAgent[0] || f in socket.toAgent[1..];
  }

  lemma ReceiveAdvances(w: World, m: MachineId)
    requires Engaged(w, m) && SocketOf(w).linked && w.process.value.commands == 0 && SocketOf(w).toAgent != []
    ensures Advances(w, m, Next(w, m))
  {
    if SocketOf(w).toAgent[0].Close? {
      ReceiveCloseAdvances(w, m);
    } else {
      ReceiveMessageAdvances(w, m);
    }
    StaysUnderway(w, m, Receive);
  }

  lemma AuthenticateComesCloser(w: World, m: MachineId, a: Action)
    requires Engaged(w, m) && SocketOf(w).linked && w.process.value.commands == 0 && SocketOf(w).toAgent == []
    requires SocketOf(w).phase.Upgraded? && SocketOf(w).open
    requires a == Serve(MachineRuns.Authenticate(w.process.value.client.link.sid))
    ensures BeingRemoved(Apply(w, a), m) && Closer(Apply(w, a), w, m)
  {
    FirstCloseAppend(SocketOf(w).toAgent, Close(INVALID_CREDENTIAL));
  }

  lemma AuthenticateAdvances(w: World, m: MachineId)
    requires Engaged(w, m) && SocketOf(w).linked && w.process.value.commands == 0 && SocketOf(w).toAgent == []
    requires SocketOf(w).phase.Upgraded? && SocketOf(w).open
    ensures Advances(w, m, Next(w, m))
  {
    AuthenticateComesCloser(w, m, Next(w, m));
    StaysUnderway(w, m, Next(w, m));
  }

  lemma GreetAdvances(w: World, m: MachineId)
    requires Engaged(w, m) && SocketOf(w).linked && w.process.value.commands == 0 && SocketOf(w).toAgent == []
    requires SocketOf(w).phase.Registered?
    ensures Advances(w, m, Next(w, m))
  {
    var a := Next(w, m);
    FirstCloseAppend(SocketOf(w).toAgent, DecommissionOrder);
    StaysUnderway(w, m, a);
  }

  lemma HeartbeatAdvances(w: World, m: MachineId, a: Action)
    requires Engaged(w, m) && w.process.value.commands == 0 && SocketOf(w).toAgent == []
    requires SocketOf(w).phase.Greeted? && SocketOf(w).toServer != [] && SocketOf(w).toServer[0].Heartbeat?
    requires a == Serve(MachineRuns.Handle(w.process.value.client.link.sid, 0))
    ensures BeingRemoved(Apply(w, a), m) && Closer(Apply(w, a), w, m)
  {
    var socket := SocketOf(w);
    assert forall f :: f in socket.toServer ==> f == socket.toServer[0] || f in socket.toServer[1..];
    FirstCloseAppend(socket.toAgent, HeartbeatAck(0));
  }

  lemma AckAdvances(w: World, m: MachineId, a: Action)
    requires Engaged(w, m) && w.process.value.commands == 0 && SocketOf(w).toAgent == []
    requires SocketOf(w).phase.Greeted? && SocketOf(w).toServer != [] && SocketOf(w).toServer[0].DecommissionAck?
    requires a == Serve(MachineRuns.Handle(w.process.value.client.link.sid, 0))
    ensures BeingRemoved(Apply(w, a), m) && Closer(Apply(w, a), w, m)
  {
    assert SocketOf(w).machine == m;
  }

  lemma HandleAdvances(w: World, m: MachineId)
    requires Engaged(w, m) && SocketOf(w).linked && w.process.value.commands == 0 && SocketOf(w).toAgent == []
    requires SocketOf(w).phase.Greeted? && SocketOf(w).toServer != []
    ensures Advances(w, m, Next(w, m))
  {
    var a := Next(w, m);
    if SocketOf(w).toServer[0].Heartbeat? {
      HeartbeatAdvances(w, m, a);
    } else {
      AckAdvances(w, m, a);
    }
    StaysUnderway(w, m, a);
  }

  lemma CutAdvances(w: World, m: MachineId)
    requires Engaged(w, m) && SocketOf(w).linked && w.process.value.commands == 0 && SocketOf(w).toAgent == []
    requires Next(w, m).Serve? && Next(w, m).op.Cut?
    ensures Advances(w, m, Next(w, m))
  {
    StaysUnderway(w, m, Next(w, m));
  }

  lemma NextAdvances(w: World, m: MachineId)
    requires Underway(w, m) && !Done(w, m)
    ensures Advances(w, m, Next(w, m))
  {
    if w.process.None? {
      BootAdvances(w, m);
    } else if !w.process.value.loop.stage.Selecting? || w.process.value.events != [] {
      LoopAdvances(w, m);
    } else if w.process.value.client.link.Idle? {
      ConnectAdvances(w, m);
    } else if !Connected(w) {
      assert false;
    } else if !SocketOf(w).linked {
      LoseLinkAdvances(w, m);
    } else if w.process.value.commands > 0 {
      TakeCommandAdvances(w, m);
    } else if SocketOf(w).toAgent != [] {
      ReceiveAdvances(w, m);
    } else if SocketOf(w).phase.Upgraded? && SocketOf(w).open {
      AuthenticateAdvances(w, m);
    } else if SocketOf(w).phase.Registered? {
      GreetAdvances(w, m);
    } else if SocketOf(w).Listening() && SocketOf(w).toServer != [] {
      HandleAdvances(w, m);
    } else {
      CutAdvances(w, m);
    }
  }

  lemma {:induction false} ScheduleFrom(start: World, past: seq<Action>, w: World, m: MachineId)
    returns (actions: seq<Action>, end: World)
    requires From(start, past) == Some(w) && DisciplinedRun(start, past)
    requires forall i :: 0 <= i < |past| ==> !Disruptive(past[i])
    requires Underway(w, m)
    ensures From(start, actions) == Some(end) && DisciplinedRun(start, actions) && Done(end, m)
    ensures forall i :: 0 <= i < |actions| ==> !Disruptive(actions[i])
    decreases RowLeft(w, m), Distance(w, m), Work(w)
  {
    if Done(w, m) {
      actions, end := past, w;
    } else {
      NextAdvances(w, m);
      var longer, w' := Then(start, past, w, Next(w, m));
      actions, end := ScheduleFrom(start, longer, w', m);
    }
  }

  /**
    Wherever a pending removal has got to, and wherever the agent last crashed, finitely many
    further steps of the cooperating parties, none of them a crash, a shutdown or a new
    enrolment, delete the row, leave the agent inert and end its connection task.
   */
  lemma RemovalNeverDeadlocks(w: World, m: MachineId) returns (actions: seq<Action>)
    requires Reachable(w) && BeingRemoved(w, m)
    ensures From(w, actions).Some? && Done(From(w, actions).value, m)
    ensures forall i :: 0 <= i < |actions| ==> !Disruptive(actions[i])
  {
    var history :| From(START, history) == Some(w) && DisciplinedRun(START, history);
    RunKeepsSafe(START, history);
    RunKeepsLive(START, history);
    var end;
    actions, end := ScheduleFrom(w, [], w, m);
  }
}
