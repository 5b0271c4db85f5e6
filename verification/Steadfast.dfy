/** A managed agent never gives up its connection for good. */
module Steadfast {
  import opened Basics
  import opened Storage
  import opened Wire
  import opened Machines
  import opened RunLoop
  import opened Protocol
  import opened Safety
  import MachineRuns
  import ServerEffects
  import Client

  /** A socket is told that the removal is final only once an acknowledgement has deleted its machine. */
  ghost predicate FinalIsTrue(s: Server) {
    forall sid :: sid in s.registry.sockets && Close(4003) in s.registry.sockets[sid].toAgent ==>
      s.registry.sockets[sid].machine in s.finalized
  }

  /** A connection task has ended only where the state file says `decommissioned`. */
  predicate StoppedIsReleased(w: World) {
    w.process.Some? && w.process.value.client.link.Stopped? ==> w.disk.Some? && w.disk.value.decommissioned
  }

  ghost predicate Steady(w: World) {
    FinalIsTrue(w.server) && StoppedIsReleased(w)
  }

  lemma ServerStaysTrue(s: Server, op: MachineRuns.Op)
    requires MachineRuns.Enabled(s, op) && Tidy(s) && FinalIsTrue(s)
    ensures FinalIsTrue(MachineRuns.Apply(s, op))
    ensures s.finalized <= MachineRuns.Apply(s, op).finalized
  {
    var s' := MachineRuns.Apply(s, op);
    ServerEffects.WhatGoesOut(s, op);
    ServerEffects.WhatIsStored(s, op);
    forall sid | sid in s'.registry.sockets && Close(4003) in s'.registry.sockets[sid].toAgent
      ensures s'.registry.sockets[sid].machine in s'.finalized
    {
      FinalCloseComes(s, op, s', sid);
    }
  }

  lemma FinalFrame(s: Server, op: MachineRuns.Op, sid: SocketId)
    requires MachineRuns.Enabled(s, op) && ServerEffects.FrameTo(s, op, sid) == Some(Close(4003))
    ensures op.Handle? && ServerEffects.Entry(s, s.registry.sockets[op.sid].machine, sid)
    ensures ServerEffects.Acknowledges(s, op, s.registry.sockets[op.sid].machine)
  {
  }

  /** A final close is on the socket already, or is written now. */
  lemma FinalFrameComes(s: Server, op: MachineRuns.Op, sid: SocketId, after: Socket)
    requires MachineRuns.Enabled(s, op) && sid in s.registry.sockets
    requires ServerEffects.SocketAfter(s, op, sid, after) && Close(4003) in after.toAgent
    ensures after.machine == s.registry.sockets[sid].machine
    ensures Close(4003) in s.registry.sockets[sid].toAgent || ServerEffects.FrameTo(s, op, sid) == Some(Close(4003))
  {
    var before := s.registry.sockets[sid];
    if op == MachineRuns.Take(sid) {
      assert forall f :: f in before.toAgent[1..] ==> f in before.toAgent;
    }
  }

  lemma FinalCloseComes(s: Server, op: MachineRuns.Op, s': Server, sid: SocketId)
    requires MachineRuns.Enabled(s, op) && Tidy(s) && FinalIsTrue(s)
    requires ServerEffects.SocketsAfter(s, op, s') && ServerEffects.RowsAfter(s, op, s')
    requires sid in s'.registry.sockets && Close(4003) in s'.registry.sockets[sid].toAgent
    ensures s'.registry.sockets[sid].machine in s'.finalized
  {
    if sid in s.registry.sockets {
      FinalFrameComes(s, op, sid, s'.registry.sockets[sid]);
      if Close(4003) !in s.registry.sockets[sid].toAgent {
        FinalFrame(s, op, sid);
      }
    }
  }

  lemma SomeOfNetwork(w: World, a: Action)
    requires Safe(w) && Steady(w) && Enabled(w, a)
    requires a.Serve? || a.Redeem? || a.SendHeartbeat?
    ensures FinalIsTrue(Apply(w, a).server)
  {
    match a
    case Serve(op) => ServerStaysTrue(w.server, op);
    case Redeem(m) => ServerStaysTrue(w.server, MachineRuns.Enroll(m));
    case SendHeartbeat =>
      ServerStaysTrue(w.server, MachineRuns.Arrive(w.process.value.client.link.sid, Heartbeat));
  }

  lemma TidyAfter(s: Server, op: MachineRuns.Op)
    requires Tidy(s) && MachineRuns.Enabled(s, op) && (op.Upgrade? || op.Arrive? || op.Take? || op.Unlink?)
    ensures Tidy(MachineRuns.Apply(s, op))
  {
  }

  lemma ConnectStaysTrue(w: World, sid: SocketId)
    requires Safe(w) && Steady(w) && Enabled(w, Connect(sid))
    ensures FinalIsTrue(Apply(w, Connect(sid)).server)
  {
    var c := w.process.value.Credential().value;
    var upgrade := MachineRuns.Upgrade(sid, c.machineId, c.machineSecret);
    var upgraded := MachineRuns.Apply(w.server, upgrade);
    ServerStaysTrue(w.server, upgrade);
    TidyAfter(w.server, upgrade);
    ServerStaysTrue(upgraded, MachineRuns.Arrive(sid, DecommissionAck));
  }

  lemma CommandStaysTrue(w: World)
    requires Safe(w) && Steady(w) && Enabled(w, TakeCommand)
    ensures FinalIsTrue(Apply(w, TakeCommand).server)
  {
    if SocketOf(w).linked {
      ServerStaysTrue(w.server, MachineRuns.Arrive(w.process.value.client.link.sid, DecommissionAck));
    }
  }

  lemma ReceiveStaysTrue(w: World)
    requires Safe(w) && Steady(w) && Enabled(w, Receive)
    ensures FinalIsTrue(Apply(w, Receive).server)
  {
    var sid := w.process.value.client.link.sid;
    var taken := MachineRuns.Apply(w.server, MachineRuns.Take(sid));
    ServerStaysTrue(w.server, MachineRuns.Take(sid));
    TidyAfter(w.server, MachineRuns.Take(sid));
    ServerStaysTrue(taken, MachineRuns.Unlink(sid));
  }

  lemma HaltStaysTrue(w: World, a: Action)
    requires Safe(w) && Steady(w) && Enabled(w, a) && (a.Crash? || a.Shutdown? || a.CrashInTick?)
    ensures FinalIsTrue(Apply(w, a).server)
  {
    if Connected(w) {
      ServerStaysTrue(w.server, MachineRuns.Unlink(w.process.value.client.link.sid));
    }
  }

  /** Why a connection task ends: the machine was finalized, or it acknowledges and is rejected. */
  lemma ReceiveStops(w: World)
    requires Safe(w) && Steady(w) && Enabled(w, Receive)
    ensures StoppedIsReleased(Apply(w, Receive))
  {
    var frame := SocketOf(w).toAgent[0];
    assert frame in SocketOf(w).toAgent;
    if frame == Close(4003) {
      assert SocketOf(w).machine in w.server.finalized;
    }
  }

  lemma OthersStopNothing(w: World, a: Action)
    requires Safe(w) && Steady(w) && Enabled(w, a) && !a.Receive?
    ensures StoppedIsReleased(Apply(w, a))
  {
  }

  lemma StepStaysSteady(w: World, a: Action)
    requires Safe(w) && Steady(w) && Enabled(w, a)
    ensures Steady(Apply(w, a))
  {
    if a.Receive? {
      ReceiveStops(w);
    } else {
      OthersStopNothing(w, a);
    }
    match a
    case Serve(_) => SomeOfNetwork(w, a);
    case Redeem(_) => SomeOfNetwork(w, a);
    case SendHeartbeat => SomeOfNetwork(w, a);
    case Connect(sid) => ConnectStaysTrue(w, sid);
    case TakeCommand => CommandStaysTrue(w);
    case Receive => ReceiveStaysTrue(w);
    case Crash => HaltStaysTrue(w, a);
    case Shutdown => HaltStaysTrue(w, a);
    case CrashInTick(_, _) => HaltStaysTrue(w, a);
    case _ =>
  }

  lemma {:induction false} RunStaysSteady(actions: seq<Action>)
    requires From(START, actions).Some? && DisciplinedRun(START, actions)
    ensures Steady(From(START, actions).value)
  {
    if actions != [] {
      var n := |actions| - 1;
      RunStaysSteady(actions[..n]);
      RunKeepsSafe(START, actions[..n]);
      StepStaysSteady(From(START, actions[..n]).value, actions[n]);
    }
  }

  /**
    Whatever close codes a managed agent is sent, it goes on connecting: in every reachable world
    a connection task has ended only if the state file says that the machine is decommissioned.
   */
  lemma ManagedAgentsKeepConnecting(w: World)
    requires Reachable(w) && w.process.Some? && w.process.value.client.link.Stopped?
    ensures w.disk.Some? && w.disk.value.decommissioned
  {
    var actions :| From(START, actions) == Some(w) && DisciplinedRun(START, actions);
    RunStaysSteady(actions);
  }
}
