/** The messages of the protocol (api/src/modules/realtime/protocol.ts) and the sockets they cross. */
module Wire {
  import opened Basics
  import opened Session

  const REPLACED := 4000
  const INVALID_CREDENTIAL := 4001
  const REMOVED := 4002
  const DECOMMISSION_FINALIZED := 4003

  /** What the server puts on a socket; a close frame is the last thing on it. */
  datatype Frame =
    | SessionUpdate(session: Option<SessionSnapshot>, serverTime: Millis)
    | HeartbeatAck(serverTime: Millis)
    | DecommissionOrder
    | Close(code: nat)

  datatype AgentMessage = Heartbeat | DecommissionAck

  /**
    What the gateway knows of a socket: the upgrade happened; the credential was verified, the
    socket registered and its listener attached; the first message was sent; it has closed.
   */
  datatype Phase = Upgraded | Registered | Greeted | Gone

  /** One connection: the credential it presented, both queues, and the state of either end. */
  datatype Socket = Socket(
    machine: MachineId,
    secret: Secret,
    phase: Phase,
    open: bool,      // `readyState === OPEN` on the server
    linked: bool,    // the agent still holds its end
    toAgent: seq<Frame>,
    toServer: seq<AgentMessage>)
  {
    /** The gateway has attached its listener and the socket has not gone. */
    predicate Listening() {
      phase.Registered? || phase.Greeted?
    }

    /** `send`: nothing goes out on a socket that is no longer open. */
    function Sent(frame: Frame): Socket {
      if open then this.(toAgent := toAgent + [frame]) else this
    }

    /** `close`: the close frame goes out once. */
    function Closed(code: nat): Socket {
      Sent(Close(code)).(open := false)
    }
  }
}

/** The live agent connections (api/src/modules/realtime/connection-registry.service.ts). */
module Registry {
  import opened Basics
  import opened Wire

  /** Sockets are named; `sockets` is the network they live on. */
  datatype State = State(agents: map<MachineId, SocketId>, sockets: map<SocketId, Socket>)
  {
    predicate IsOpen(sid: SocketId) {
      sid in sockets && sockets[sid].open
    }

    function Put(sid: SocketId, socket: Socket): State {
      this.(sockets := sockets[sid := socket])
    }

    function CloseSocket(sid: SocketId, code: nat): State {
      if sid in sockets then Put(sid, sockets[sid].Closed(code)) else this
    }

    function Send(sid: SocketId, frame: Frame): State {
      if sid in sockets then Put(sid, sockets[sid].Sent(frame)) else this
    }

    function RegisterAgent(machineId: MachineId, sid: SocketId): State {
      var existing := if machineId in agents then Some(agents[machineId]) else None;
      var cleared := if existing.Some? && existing.value != sid && IsOpen(existing.value)
                     then CloseSocket(existing.value, REPLACED) else this;
      cleared.(agents := agents[machineId := sid])
    }

    function UnregisterAgent(machineId: MachineId, sid: SocketId): State {
      if machineId in agents && agents[machineId] == sid then this.(agents := agents - {machineId}) else this
    }

    function SendToMachine(machineId: MachineId, frame: Frame): State {
      if machineId in agents && IsOpen(agents[machineId]) then Send(agents[machineId], frame) else this
    }

    function DisconnectMachine(machineId: MachineId, code: nat): State {
      if machineId in agents then CloseSocket(agents[machineId], code).(agents := agents - {machineId}) else this
    }
  }

  class ConnectionRegistry {
    var agentSockets: map<MachineId, SocketId>
    var sockets: map<SocketId, Socket>

    ghost function View(): State
      reads this
    {
      State(agentSockets, sockets)
    }

    constructor ()
      ensures View() == State(map[], map[])
    {
      agentSockets, sockets := map[], map[];
    }

    method RegisterAgent(machineId: MachineId, sid: SocketId)
      modifies this
      ensures View() == old(View()).RegisterAgent(machineId, sid)
      ensures agentSockets == old(agentSockets)[machineId := sid] && sockets.Keys == old(sockets).Keys
      ensures forall s :: s in sockets ==>
                var before := old(sockets)[s];
                if s != sid && machineId in old(agentSockets) && old(agentSockets)[machineId] == s && before.open
                then sockets[s] == before.(toAgent := before.toAgent + [Close(4000)], open := false)
                else sockets[s] == before
    {
      if machineId in agentSockets {
        var existing := agentSockets[machineId];
        if existing != sid && existing in sockets && sockets[existing].open {
          sockets := sockets[existing := sockets[existing].Closed(REPLACED)];
        }
      }
      agentSockets := agentSockets[machineId := sid];
    }

    method UnregisterAgent(machineId: MachineId, sid: SocketId)
      modifies this`agentSockets
      ensures View() == old(View()).UnregisterAgent(machineId, sid)
      ensures forall m :: m in agentSockets <==>
                m in old(agentSockets) && !(m == machineId && old(agentSockets)[m] == sid)
      ensures forall m :: m in agentSockets ==> agentSockets[m] == old(agentSockets)[m]
    {
      if machineId in agentSockets && agentSockets[machineId] == sid {
        agentSockets := agentSockets - {machineId};
      }
    }

    method IsAgentConnected(machineId: MachineId) returns (connected: bool)
      ensures connected <==> machineId in agentSockets && View().IsOpen(agentSockets[machineId])
    {
      connected := machineId in agentSockets && agentSockets[machineId] in sockets
                   && sockets[agentSockets[machineId]].open;
    }

    method Send(sid: SocketId, frame: Frame)
      modifies this`sockets
      ensures View() == old(View()).Send(sid, frame) && sockets.Keys == old(sockets).Keys
      ensures forall s :: s in sockets ==>
                var before := old(sockets)[s];
                if s == sid && before.open then sockets[s] == before.(toAgent := before.toAgent + [frame])
                else sockets[s] == before
    {
      if sid in sockets {
        sockets := sockets[sid := sockets[sid].Sent(frame)];
      }
    }

    method SendToMachine(machineId: MachineId, frame: Frame)
      modifies this`sockets
      ensures View() == old(View()).SendToMachine(machineId, frame) && sockets.Keys == old(sockets).Keys
      ensures forall s :: s in sockets ==>
                var before := old(sockets)[s];
                if machineId in agentSockets && agentSockets[machineId] == s && before.open
                then sockets[s] == before.(toAgent := before.toAgent + [frame])
                else sockets[s] == before
    {
      if machineId in agentSockets {
        var sid := agentSockets[machineId];
        if sid in sockets && sockets[sid].open {
          sockets := sockets[sid := sockets[sid].Sent(frame)];
        }
      }
    }

    method DisconnectMachine(machineId: MachineId, code: nat)
      modifies this
      ensures View() == old(View()).DisconnectMachine(machineId, code)
      ensures agentSockets == old(agentSockets) - {machineId} && sockets.Keys == old(sockets).Keys
      ensures forall s :: s in sockets ==>
                var before := old(sockets)[s];
                if machineId in old(agentSockets) && old(agentSockets)[machineId] == s && before.open
                then sockets[s] == before.(toAgent := before.toAgent + [Close(code)], open := false)
                else sockets[s] == before
    {
      if machineId in agentSockets {
        var sid := agentSockets[machineId];
        if sid in sockets {
          sockets := sockets[sid := sockets[sid].Closed(code)];
        }
        agentSockets := agentSockets - {machineId};
      }
    }
  }
}
