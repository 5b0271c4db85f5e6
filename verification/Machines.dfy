/**
  The lifecycle of a machine on the server (api/src/modules/machines/machines.service.ts) and the
  gateway that drives it (api/src/modules/realtime/realtime.gateway.ts).

  `Server` is the abstract value: the machine rows, the registry, and what operators were told.
  Each service call is one atomic step. Hashes are modelled by what they verify: a secret.
 */
module Machines {
  import opened Basics
  import opened Session
  import opened Wire
  import Registry

  datatype Row = Row(
    credential: Option<Secret>,
    revokedAt: Option<Millis>,
    decommissionRequestedAt: Option<Millis>)
  {
    predicate HasUsableCredential() {
      credential.Some? && revokedAt.None?
    }

    predicate Pending() {
      decommissionRequestedAt.Some?
    }
  }

  const NEW_ROW := Row(None, None, None)

  datatype Notice = MachineDecommissioning(machineId: MachineId) | MachineRemoved(machineId: MachineId)

  datatype RemoveOutcome = NotFound | Removed | Decommissioning

  /** `finalized` is history: the machines whose rows an acknowledgement deleted. */
  datatype Server = Server(
    rows: map<MachineId, Row>,
    registry: Registry.State,
    notices: seq<Notice>,
    nextMachine: MachineId,
    nextSecret: Secret,
    finalized: set<MachineId>)
  {
    predicate IsPendingDecommission(m: MachineId) {
      m in rows && rows[m].Pending()
    }

    predicate VerifyMachineCredential(m: MachineId, secret: Secret) {
      m in rows && rows[m].revokedAt.None? && rows[m].credential == Some(secret)
    }

    function Create(): Server {
      this.(rows := rows[nextMachine := NEW_ROW], nextMachine := nextMachine + 1)
    }

    function Enroll(m: MachineId): Server {
      if m !in rows then this
      else this.(rows := rows[m := rows[m].(credential := Some(nextSecret), revokedAt := None)],
                 nextSecret := nextSecret + 1)
    }

    function RevokeCredential(m: MachineId, now: Millis): Server {
      if m !in rows then this
      else this.(rows := rows[m := rows[m].(credential := None, revokedAt := Some(now))],
                 registry := registry.DisconnectMachine(m, INVALID_CREDENTIAL))
    }

    function HardDelete(m: MachineId): Server {
      this.(rows := rows - {m}, registry := registry.DisconnectMachine(m, REMOVED),
            notices := notices + [MachineRemoved(m)])
    }

    function MarkPending(m: MachineId, now: Millis): Server
      requires m in rows
    {
      if rows[m].Pending() then this
      else this.(rows := rows[m := rows[m].(decommissionRequestedAt := Some(now))],
                 notices := notices + [MachineDecommissioning(m)])
    }

    function RequestDecommission(m: MachineId, now: Millis): (Server, RemoveOutcome) {
      if m !in rows then (this, NotFound)
      else if !rows[m].HasUsableCredential() then (HardDelete(m), Removed)
      else
        var marked := MarkPending(m, now);
        (marked.(registry := marked.registry.SendToMachine(m, DecommissionOrder)), Decommissioning)
    }

    function FinalizeDecommission(m: MachineId): Server {
      if !IsPendingDecommission(m) then this
      else this.(rows := rows - {m}, registry := registry.DisconnectMachine(m, DECOMMISSION_FINALIZED),
                 notices := notices + [MachineRemoved(m)], finalized := finalized + {m})
    }

    // The gateway.

    /** `authenticateAgent` up to the listener: reject the socket, or register it. */
    function Authenticate(sid: SocketId): Server
      requires sid in registry.sockets
    {
      var socket := registry.sockets[sid];
      if VerifyMachineCredential(socket.machine, socket.secret) then
        this.(registry := registry.Put(sid, socket.(phase := Registered)).RegisterAgent(socket.machine, sid))
      else
        this.(registry := registry.Put(sid, socket.Closed(INVALID_CREDENTIAL).(phase := Gone)))
    }

    /** The rest of `authenticateAgent`; its heartbeat update throws if the row has gone. */
    function Greet(sid: SocketId, session: Option<SessionSnapshot>, now: Millis): Server
      requires sid in registry.sockets
    {
      var socket := registry.sockets[sid].(phase := Greeted);
      this.(registry := registry.Put(sid,
        if socket.machine !in rows then socket
        else if rows[socket.machine].Pending() then socket.Sent(DecommissionOrder)
        else socket.Sent(SessionUpdate(session, now))))
    }

    /** `handleAgentMessage` for the message at the head of the socket's queue. */
    function HandleMessage(sid: SocketId, now: Millis): Server
      requires sid in registry.sockets && registry.sockets[sid].toServer != []
    {
      var socket := registry.sockets[sid];
      var rest := socket.(toServer := socket.toServer[1..]);
      var taken := this.(registry := registry.Put(sid, rest));
      match socket.toServer[0]
      case Heartbeat =>
        if socket.machine in rows then taken.(registry := taken.registry.Send(sid, HeartbeatAck(now))) else taken
      case DecommissionAck => taken.FinalizeDecommission(socket.machine)
    }

    /** `handleDisconnect`. */
    function Disconnected(sid: SocketId): Server
      requires sid in registry.sockets
    {
      var socket := registry.sockets[sid];
      if socket.Listening()
      then
        var gone := registry.Put(sid, socket.(phase := Gone, open := false));
        this.(registry := gone.UnregisterAgent(socket.machine, sid))
      else this.(registry := registry.Put(sid, socket.(open := false)))
    }
  }

  const EMPTY := Server(map[], Registry.State(map[], map[]), [], 0, 0, {})

  class MachinesService {
    var rows: map<MachineId, Row>
    const registry: Registry.ConnectionRegistry
    var notices: seq<Notice>
    var nextMachine: MachineId
    var nextSecret: Secret
    ghost var finalized: set<MachineId>

    ghost function View(): Server
      reads this, registry
    {
      Server(rows, registry.View(), notices, nextMachine, nextSecret, finalized)
    }

    constructor (registry: Registry.ConnectionRegistry)
      requires registry.View() == EMPTY.registry
      ensures this.registry == registry && View() == EMPTY
    {
      rows, notices, nextMachine, nextSecret, finalized := map[], [], 0, 0, {};
      this.registry := registry;
    }

    method Create() returns (id: MachineId)
      modifies this
      ensures View() == old(View()).Create() && id == old(nextMachine)
    {
      id := nextMachine;
      rows := rows[id := NEW_ROW];
      nextMachine := nextMachine + 1;
    }

    /** Redeems a valid token of `machineId`; whether it is valid is decided by the caller. */
    method Enroll(machineId: MachineId) returns (secret: Option<Secret>)
      modifies this
      ensures View() == old(View()).Enroll(machineId)
      ensures secret == if machineId in old(rows) then Some(old(nextSecret)) else None
      ensures rows.Keys == old(rows).Keys && forall m :: m in rows ==>
                var before := old(rows)[m];
                rows[m] == if m == machineId then Row(Some(old(nextSecret)), None, before.decommissionRequestedAt)
                  else before
    {
      if machineId !in rows {
        return None;
      }
      secret := Some(nextSecret);
      rows := rows[machineId := rows[machineId].(credential := secret, revokedAt := None)];
      nextSecret := nextSecret + 1;
    }

    method RevokeCredential(machineId: MachineId, now: Millis)
      modifies this, registry
      ensures View() == old(View()).RevokeCredential(machineId, now)
      ensures rows.Keys == old(rows).Keys && forall m :: m in rows ==>
                var before := old(rows)[m];
                rows[m] == if m == machineId then Row(None, Some(now), before.decommissionRequestedAt) else before
    {
      if machineId in rows {
        rows := rows[machineId := rows[machineId].(credential := None, revokedAt := Some(now))];
        registry.DisconnectMachine(machineId, INVALID_CREDENTIAL);
      }
    }

    /** `delivered` is what the source logs: whether the order went out at once. */
    method RequestDecommission(id: MachineId, now: Millis) returns (outcome: RemoveOutcome, delivered: bool)
      modifies this, registry
      ensures (View(), outcome) == old(View()).RequestDecommission(id, now)
      ensures outcome.NotFound? <==> id !in old(rows)
      ensures outcome.Removed? <==>
                id in old(rows) && (old(rows)[id].credential.None? || old(rows)[id].revokedAt.Some?)
      ensures delivered <==>
                outcome.Decommissioning? && id in old(registry.agentSockets)
                && old(registry.View()).IsOpen(old(registry.agentSockets)[id])
    {
      if id !in rows {
        return NotFound, false;
      }
      var machine := rows[id];
      if !(machine.credential.Some? && machine.revokedAt.None?) {
        HardDelete(id);
        return Removed, false;
      }
      if machine.decommissionRequestedAt.None? {
        rows := rows[id := machine.(decommissionRequestedAt := Some(now))];
        notices := notices + [MachineDecommissioning(id)];
      }
      delivered := registry.IsAgentConnected(id);
      registry.SendToMachine(id, DecommissionOrder);
      outcome := Decommissioning;
    }

    method FinalizeDecommission(machineId: MachineId)
      modifies this, registry
      ensures View() == old(View()).FinalizeDecommission(machineId)
    {
      if !(machineId in rows && rows[machineId].decommissionRequestedAt.Some?) {
        return;
      }
      rows := rows - {machineId};
      finalized := finalized + {machineId};
      registry.DisconnectMachine(machineId, DECOMMISSION_FINALIZED);
      notices := notices + [MachineRemoved(machineId)];
    }

    method HardDelete(id: MachineId)
      requires id in rows
      modifies this, registry
      ensures View() == old(View()).HardDelete(id)
    {
      registry.DisconnectMachine(id, REMOVED);
      rows := rows - {id};
      notices := notices + [MachineRemoved(id)];
    }

    method IsPendingDecommission(machineId: MachineId) returns (pending: bool)
      ensures pending <==> machineId in rows && rows[machineId].decommissionRequestedAt.Some?
    {
      pending := machineId in rows && rows[machineId].decommissionRequestedAt.Some?;
    }

    method VerifyMachineCredential(machineId: MachineId, secret: Secret) returns (valid: bool)
      ensures valid <==>
                machineId in rows && rows[machineId].revokedAt.None? && rows[machineId].credential == Some(secret)
    {
      if machineId !in rows || rows[machineId].revokedAt.Some? {
        return false;
      }
      valid := rows[machineId].credential == Some(secret);
    }
  }

  class RealtimeGateway {
    const machines: MachinesService
    const registry: Registry.ConnectionRegistry

    constructor (machines: MachinesService)
      ensures this.machines == machines && this.registry == machines.registry
    {
      this.machines := machines;
      this.registry := machines.registry;
    }

    ghost predicate Valid()
      reads machines
    {
      registry == machines.registry
    }

    method AuthenticateAgent(sid: SocketId)
      requires Valid() && sid in registry.sockets
      modifies registry
      ensures machines.View() == old(machines.View()).Authenticate(sid)
    {
      var socket := registry.sockets[sid];
      var valid := machines.VerifyMachineCredential(socket.machine, socket.secret);
      if !valid {
        registry.sockets := registry.sockets[sid := socket.Closed(INVALID_CREDENTIAL).(phase := Gone)];
        return;
      }
      registry.sockets := registry.sockets[sid := socket.(phase := Registered)];
      registry.RegisterAgent(socket.machine, sid);
    }

    method GreetAgent(sid: SocketId, session: Option<SessionSnapshot>, now: Millis)
      requires Valid() && sid in registry.sockets
      modifies registry
      ensures machines.View() == old(machines.View()).Greet(sid, session, now)
    {
      var socket := registry.sockets[sid].(phase := Greeted);
      if socket.machine in machines.rows {
        var pending := machines.IsPendingDecommission(socket.machine);
        if pending {
          socket := socket.Sent(DecommissionOrder);
        } else {
          socket := socket.Sent(SessionUpdate(session, now));
        }
      }
      registry.sockets := registry.sockets[sid := socket];
    }

    method HandleAgentMessage(sid: SocketId, now: Millis)
      requires Valid() && sid in registry.sockets && registry.sockets[sid].toServer != []
      modifies machines, registry
      ensures machines.View() == old(machines.View()).HandleMessage(sid, now)
    {
      var socket := registry.sockets[sid];
      var message := socket.toServer[0];
      registry.sockets := registry.sockets[sid := socket.(toServer := socket.toServer[1..])];
      match message {
        case Heartbeat =>
          if socket.machine in machines.rows {
            registry.Send(sid, HeartbeatAck(now));
          }
        case DecommissionAck =>
          machines.FinalizeDecommission(socket.machine);
      }
    }

    method HandleDisconnect(sid: SocketId)
      requires Valid() && sid in registry.sockets
      modifies registry
      ensures machines.View() == old(machines.View()).Disconnected(sid)
    {
      var socket := registry.sockets[sid];
      if socket.phase.Registered? || socket.phase.Greeted? {
        registry.sockets := registry.sockets[sid := socket.(phase := Gone, open := false)];
        registry.UnregisterAgent(socket.machine, sid);
      } else {
        registry.sockets := registry.sockets[sid := socket.(open := false)];
      }
    }
  }
}

/** The server and the network under any interleaving of whole calls, messages and failures. */
module MachineRuns {
  import opened Basics
  import opened Session
  import opened Wire
  import opened Machines
  import Registry

  datatype Op =
    | Create
    | Enroll(machine: MachineId)
    | Revoke(machine: MachineId, now: Millis)
    | Request(machine: MachineId, now: Millis)
    | Push(machine: MachineId, session: Option<SessionSnapshot>, now: Millis)
    | Upgrade(sid: SocketId, machine: MachineId, secret: Secret)
    | Authenticate(sid: SocketId)
    | Greet(sid: SocketId, session: Option<SessionSnapshot>, now: Millis)
    | Handle(sid: SocketId, now: Millis)
    | Discard(sid: SocketId)                        // a message with no listener attached
    | Disconnect(sid: SocketId)                     // the socket's close event
    | Arrive(sid: SocketId, message: AgentMessage)  // the agent sends
    | Take(sid: SocketId)                           // the agent receives
    | Unlink(sid: SocketId)                         // the agent lets go; what it sent may still arrive
    | Cut(sid: SocketId)                            // the link breaks; both queues are lost

  predicate Enabled(s: Server, op: Op) {
    var sockets := s.registry.sockets;
    match op
    case Create => true
    case Enroll(m) => m in s.rows
    case Revoke(m, _) => m in s.rows
    case Request(_, _) => true
    case Push(m, _, _) => m in s.rows
    case Upgrade(sid, _, _) => sid !in sockets
    case Authenticate(sid) => sid in sockets && sockets[sid].phase.Upgraded?
    case Greet(sid, _, _) => sid in sockets && sockets[sid].phase.Registered?
    case Handle(sid, _) => sid in sockets && sockets[sid].Listening() && sockets[sid].toServer != []
    case Discard(sid) => sid in sockets && !sockets[sid].Listening() && sockets[sid].toServer != []
    case Disconnect(sid) => sid in sockets && (!sockets[sid].open || !sockets[sid].linked)
    case Arrive(sid, _) => sid in sockets && sockets[sid].linked
    case Take(sid) => sid in sockets && sockets[sid].linked && sockets[sid].toAgent != []
    case Unlink(sid) => sid in sockets
    case Cut(sid) => sid in sockets
  }

  function OnSocket(s: Server, sid: SocketId, socket: Socket): Server {
    s.(registry := s.registry.Put(sid, socket))
  }

  function Apply(s: Server, op: Op): Server
    requires Enabled(s, op)
  {
    var sockets := s.registry.sockets;
    match op
    case Create => s.Create()
    case Enroll(m) => s.Enroll(m)
    case Revoke(m, now) => s.RevokeCredential(m, now)
    case Request(m, now) => s.RequestDecommission(m, now).0
    case Push(m, session, now) => s.(registry := s.registry.SendToMachine(m, SessionUpdate(session, now)))
    case Upgrade(sid, m, secret) => OnSocket(s, sid, Socket(m, secret, Upgraded, true, true, [], []))
    case Authenticate(sid) => s.Authenticate(sid)
    case Greet(sid, session, now) => s.Greet(sid, session, now)
    case Handle(sid, now) => s.HandleMessage(sid, now)
    case Discard(sid) => OnSocket(s, sid, sockets[sid].(toServer := sockets[sid].toServer[1..]))
    case Disconnect(sid) => s.Disconnected(sid)
    case Arrive(sid, message) => OnSocket(s, sid, sockets[sid].(toServer := sockets[sid].toServer + [message]))
    case Take(sid) => OnSocket(s, sid, sockets[sid].(toAgent := sockets[sid].toAgent[1..]))
    case Unlink(sid) => OnSocket(s, sid, sockets[sid].(linked := false))
    case Cut(sid) => OnSocket(s, sid, sockets[sid].(linked := false, toAgent := [], toServer := []))
  }

  function Reached(ops: seq<Op>): Option<Server> {
    if ops == [] then Some(EMPTY)
    else
      var s := Reached(ops[..|ops| - 1]);
      if s.Some? && Enabled(s.value, ops[|ops| - 1]) then Some(Apply(s.value, ops[|ops| - 1])) else None
  }

  function RemovedCount(notices: seq<Notice>, m: MachineId): nat {
    if notices == [] then 0
    else
      var last := |notices| - 1;
      RemovedCount(notices[..last], m) + if notices[last] == MachineRemoved(m) then 1 else 0
  }

  lemma {:induction false} CountAppend(notices: seq<Notice>, notice: Notice, m: MachineId)
    ensures RemovedCount(notices + [notice], m) ==
            RemovedCount(notices, m) + if notice == MachineRemoved(m) then 1 else 0
  {
    assert (notices + [notice])[..|notices|] == notices;
  }

  /** Rows and announcements agree: a machine is announced removed once, when its row goes. */
  ghost predicate Books(s: Server) {
    && (forall m :: m in s.rows ==> m < s.nextMachine)
    && (forall m: MachineId :: RemovedCount(s.notices, m) == if m < s.nextMachine && m !in s.rows then 1 else 0)
  }

  /** What any step does to rows and announcements. */
  lemma StepOnRows(s: Server, op: Op)
    requires Enabled(s, op)
    ensures var s' := Apply(s, op);
            || (s'.rows.Keys == s.rows.Keys && s'.nextMachine == s.nextMachine
                && (s'.notices == s.notices ||
                    exists m :: s'.notices == s.notices + [MachineDecommissioning(m)]))
            || (op.Create? && s'.rows.Keys == s.rows.Keys + {s.nextMachine} && s'.nextMachine == s.nextMachine + 1
                && s'.notices == s.notices)
            || exists m :: m in s.rows && s'.rows.Keys == s.rows.Keys - {m} && s'.nextMachine == s.nextMachine
                && s'.notices == s.notices + [MachineRemoved(m)]
  {
    if op.Request? && op.machine in s.rows && s.rows[op.machine].HasUsableCredential() {
      assert s.MarkPending(op.machine, op.now).rows.Keys == s.rows.Keys;
    }
  }

  lemma StepKeepsBooks(s: Server, op: Op)
    requires Books(s) && Enabled(s, op)
    ensures Books(Apply(s, op))
  {
    var s' := Apply(s, op);
    StepOnRows(s, op);
    if gone :| gone in s.rows && s'.rows.Keys == s.rows.Keys - {gone} && s'.nextMachine == s.nextMachine
               && s'.notices == s.notices + [MachineRemoved(gone)] {
      forall m: MachineId ensures RemovedCount(s'.notices, m) == if m < s'.nextMachine && m !in s'.rows then 1 else 0 {
        CountAppend(s.notices, MachineRemoved(gone), m);
        assert m in s'.rows <==> m in s.rows && m != gone;
      }
      assert forall m :: m in s'.rows ==> m in s.rows;
    } else if about :| s'.notices == s.notices + [MachineDecommissioning(about)] {
      forall m: MachineId ensures RemovedCount(s'.notices, m) == if m < s'.nextMachine && m !in s'.rows then 1 else 0 {
        CountAppend(s.notices, MachineDecommissioning(about), m);
        assert m in s'.rows <==> m in s.rows.Keys;
      }
      assert forall m :: m in s'.rows ==> m in s.rows.Keys;
    } else {
      assert forall m :: m in s'.rows ==> m in s'.rows.Keys;
      assert forall m :: m in s.rows.Keys ==> m in s'.rows.Keys;
    }
  }

  lemma {:induction false} AlwaysBooks(ops: seq<Op>)
    requires Reached(ops).Some?
    ensures Books(Reached(ops).value)
  {
    if ops != [] {
      AlwaysBooks(ops[..|ops| - 1]);
      StepKeepsBooks(Reached(ops[..|ops| - 1]).value, ops[|ops| - 1]);
    }
  }

  /**
    Operators are told of a removal exactly once per deleted machine, however many removals,
    acknowledgements and duplicates arrive, and never of one that still exists.
   */
  lemma {:induction false} RemovedIsAnnouncedOnce(ops: seq<Op>, m: MachineId)
    requires Reached(ops).Some?
    ensures var s := Reached(ops).value;
            RemovedCount(s.notices, m) == if m < s.nextMachine && m !in s.rows then 1 else 0
  {
    AlwaysBooks(ops);
  }

  lemma {:induction false} ReachedPrefix(ops: seq<Op>, i: nat)
    requires i < |ops| && Reached(ops).Some?
    ensures Reached(ops[..|ops| - 1]).Some?
    ensures ops[..|ops| - 1][..i] == ops[..i]
  {
  }

  lemma StepKeepsPending(s: Server, op: Op, m: MachineId)
    requires Enabled(s, op) && s.IsPendingDecommission(m) && m < s.nextMachine && m in Apply(s, op).rows
    ensures Apply(s, op).rows[m].decommissionRequestedAt == s.rows[m].decommissionRequestedAt
  {
  }

  /** A row once gone never comes back, and a pending time once set is never changed. */
  lemma {:induction false} PendingIsNeverReset(ops: seq<Op>, i: nat, m: MachineId)
    requires i <= |ops| && Reached(ops).Some?
    ensures Reached(ops[..i]).Some?
    ensures var earlier, later := Reached(ops[..i]).value, Reached(ops).value;
            && earlier.nextMachine <= later.nextMachine
            && (m < earlier.nextMachine && m !in earlier.rows ==> m !in later.rows)
            && (earlier.IsPendingDecommission(m) && m in later.rows ==>
                  later.rows[m].decommissionRequestedAt == earlier.rows[m].decommissionRequestedAt)
  {
    if i == |ops| {
      assert ops[..i] == ops;
    } else {
      var n := |ops| - 1;
      ReachedPrefix(ops, i);
      PendingIsNeverReset(ops[..n], i, m);
      StepOnRows(Reached(ops[..n]).value, ops[n]);
      AlwaysBooks(ops[..n]);
      AlwaysBooks(ops[..i]);
      if Reached(ops[..n]).value.IsPendingDecommission(m) && m in Reached(ops).value.rows {
        StepKeepsPending(Reached(ops[..n]).value, ops[n], m);
      }
    }
  }

  /** A listening socket was once verified for the machine it speaks for. */
  ghost predicate Verified(ops: seq<Op>, k: int, sid: SocketId, m: MachineId) {
    && 0 <= k < |ops| && ops[k] == Authenticate(sid)
    && Reached(ops[..k]).Some?
    && sid in Reached(ops[..k]).value.registry.sockets
    && var before := Reached(ops[..k]).value;
       var socket := before.registry.sockets[sid];
       socket.machine == m && before.VerifyMachineCredential(m, socket.secret)
  }

  /** Service calls close sockets, and attach a listener to none. */
  lemma KicksAttachNothing(s: Server, op: Op, sid: SocketId)
    requires Enabled(s, op) && (op.Revoke? || op.Request? || op.Push?)
    requires sid in Apply(s, op).registry.sockets
    ensures sid in s.registry.sockets && Apply(s, op).registry.sockets[sid].machine == s.registry.sockets[sid].machine
    ensures Apply(s, op).registry.sockets[sid].Listening() ==> s.registry.sockets[sid].Listening()
  {
  }

  lemma MessagesAttachNothing(s: Server, op: Op, sid: SocketId)
    requires Enabled(s, op) && op.Handle?
    requires sid in Apply(s, op).registry.sockets
    ensures sid in s.registry.sockets && Apply(s, op).registry.sockets[sid].machine == s.registry.sockets[sid].machine
    ensures Apply(s, op).registry.sockets[sid].Listening() ==> s.registry.sockets[sid].Listening()
  {
  }

  lemma ListeningGoesOn(s: Server, op: Op, sid: SocketId)
    requires Enabled(s, op) && !op.Authenticate? && !op.Upgrade?
    requires sid in Apply(s, op).registry.sockets
    ensures sid in s.registry.sockets && Apply(s, op).registry.sockets[sid].machine == s.registry.sockets[sid].machine
    ensures Apply(s, op).registry.sockets[sid].Listening() ==> s.registry.sockets[sid].Listening()
  {
    if op.Revoke? || op.Request? || op.Push? {
      KicksAttachNothing(s, op, sid);
    } else if op.Handle? {
      MessagesAttachNothing(s, op, sid);
    }
  }

  lemma ListeningBegins(s: Server, op: Op, sid: SocketId)
    requires Enabled(s, op)
    requires sid in Apply(s, op).registry.sockets && Apply(s, op).registry.sockets[sid].Listening()
    ensures sid in s.registry.sockets && Apply(s, op).registry.sockets[sid].machine == s.registry.sockets[sid].machine
    ensures s.registry.sockets[sid].Listening() ||
            (op == Authenticate(sid) &&
             s.VerifyMachineCredential(s.registry.sockets[sid].machine, s.registry.sockets[sid].secret))
  {
    if !op.Authenticate? && !op.Upgrade? {
      ListeningGoesOn(s, op, sid);
    }
  }

  lemma {:induction false} ListeningWasVerified(ops: seq<Op>, sid: SocketId) returns (k: int)
    requires Reached(ops).Some? && sid in Reached(ops).value.registry.sockets
    requires Reached(ops).value.registry.sockets[sid].Listening()
    ensures Verified(ops, k, sid, Reached(ops).value.registry.sockets[sid].machine)
  {
    var n := |ops| - 1;
    var before := Reached(ops[..n]).value;
    ListeningBegins(before, ops[n], sid);
    if before.registry.sockets[sid].Listening() {
      k := ListeningWasVerified(ops[..n], sid);
      assert ops[..n][..k] == ops[..k] && ops[..n][k] == ops[k];
    } else {
      k := n;
    }
  }

  /**
    A row with a usable credential disappears in one way only: while it is pending, an
    acknowledgement arrives on a socket that was verified with that machine's credential.
   */
  lemma OnlyAnAckDeletesAnEnrolledMachine(ops: seq<Op>, op: Op, m: MachineId) returns (k: int)
    requires Reached(ops).Some? && Enabled(Reached(ops).value, op)
    requires var s := Reached(ops).value; m in s.rows && s.rows[m].HasUsableCredential() && m !in Apply(s, op).rows
    ensures var s := Reached(ops).value;
            && op.Handle? && s.registry.sockets[op.sid].toServer[0] == DecommissionAck
            && s.IsPendingDecommission(m)
            && Verified(ops, k, op.sid, m)
            && m in Apply(s, op).finalized
  {
    var s := Reached(ops).value;
    assert op.Handle? && s.registry.sockets[op.sid].toServer[0] == DecommissionAck;
    k := ListeningWasVerified(ops, op.sid);
  }
}
