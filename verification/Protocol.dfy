/** The agent's connection task (agent/src/client.rs). */
module Client {
  import opened Basics
  import opened Wire
  import RunLoop

  /** Between connections, on a connection, or ended for good. */
  datatype Link = Idle | On(sid: SocketId) | Stopped

  datatype State = State(link: Link, ack: bool)

  /** What a frame tells the run loop; closing tells it nothing. */
  function EventOf(frame: Frame): Option<RunLoop.ServerEvent> {
    match frame
    case SessionUpdate(session, serverTime) =>
      Some(RunLoop.SessionState(session, if session.Some? then session.value.updatedAt else serverTime))
    case HeartbeatAck(serverTime) => Some(RunLoop.ServerTime(serverTime))
    case DecommissionOrder => Some(RunLoop.Decommission)
    case Close(_) => None
  }

  /** The close codes after which the task does not reconnect. */
  predicate IsFinal(code: nat, ack: bool) {
    code == DECOMMISSION_FINALIZED || (ack && code == INVALID_CREDENTIAL)
  }

  function Received(c: State, frame: Frame): State {
    if frame.Close? then c.(link := if IsFinal(frame.code, c.ack) then Stopped else Idle) else c
  }

  /** A new connection: commands that waited are taken first, and an ack that is owed goes out at once. */
  function Connecting(c: State, sid: SocketId, waiting: nat): (State, seq<AgentMessage>) {
    var ack := c.ack || waiting > 0;
    (State(On(sid), ack), if ack then [DecommissionAck] else [])
  }

  /** `AckDecommission` while connected; a failed write ends the connection, not the duty to ack. */
  function Commanded(c: State, writable: bool): (State, seq<AgentMessage>) {
    if writable then (State(c.link, true), [DecommissionAck]) else (State(Idle, true), [])
  }

  class ConnectionTask {
    var link: Link
    var ackDecommission: bool
    var sent: seq<AgentMessage>             // what this connection has written
    var events: seq<RunLoop.ServerEvent>    // what the run loop has been handed

    ghost function View(): State
      reads this
    {
      State(link, ackDecommission)
    }

    constructor ()
      ensures View() == State(Idle, false) && sent == [] && events == []
    {
      link, ackDecommission, sent, events := Idle, false, [], [];
    }

    method Connect(sid: SocketId, waiting: nat)
      requires link.Idle?
      modifies this
      ensures (View(), sent) == Connecting(old(View()), sid, waiting)
      ensures events == old(events)
    {
      link := On(sid);
      sent := [];
      var left := waiting;
      while left > 0
        invariant 0 <= left <= waiting
        invariant link == On(sid) && sent == [] && events == old(events)
        invariant ackDecommission == (old(ackDecommission) || left < waiting)
      {
        ackDecommission := true;
        left := left - 1;
      }
      if ackDecommission {
        sent := sent + [DecommissionAck];
        assert sent == [DecommissionAck];
      }
    }

    method TakeCommand(writable: bool)
      requires link.On?
      modifies this
      ensures View() == Commanded(old(View()), writable).0
      ensures sent == old(sent) + Commanded(old(View()), writable).1
      ensures events == old(events)
    {
      ackDecommission := true;
      if writable {
        sent := sent + [DecommissionAck];
      } else {
        link := Idle;
        assert sent + [] == sent;
      }
    }

    method Receive(frame: Frame)
      requires link.On?
      modifies this
      ensures View() == Received(old(View()), frame) && ackDecommission == old(ackDecommission)
      ensures link == if frame == Close(4003) || (frame == Close(4001) && ackDecommission) then Stopped
                      else if frame.Close? then Idle else old(link)
      ensures events == old(events) + (
                match frame
                case SessionUpdate(None, serverTime) => [RunLoop.SessionState(None, serverTime)]
                case SessionUpdate(Some(session), _) => [RunLoop.SessionState(Some(session), session.updatedAt)]
                case HeartbeatAck(serverTime) => [RunLoop.ServerTime(serverTime)]
                case DecommissionOrder => [RunLoop.Decommission]
                case Close(_) => [])
      ensures sent == old(sent)
    {
      match frame {
        case Close(code) =>
          if code == DECOMMISSION_FINALIZED {
            link := Stopped;
          } else if ackDecommission && code == INVALID_CREDENTIAL {
            link := Stopped;
          } else {
            link := Idle;
          }
        case SessionUpdate(session, serverTime) =>
          var messageTime := if session.Some? then session.value.updatedAt else serverTime;
          events := events + [RunLoop.SessionState(session, messageTime)];
        case HeartbeatAck(serverTime) =>
          events := events + [RunLoop.ServerTime(serverTime)];
        case DecommissionOrder =>
          events := events + [RunLoop.Decommission];
      }
    }
  }
}

/**
  Removing a machine, end to end: the server, the network and one computer.

  Every step is one atomic action of one party. The computer may crash at any of them: between
  the write of the new state and its rename, between the rename and the command to acknowledge,
  between that command and the write to the socket. Connections break at any time; what a dead
  process already sent may still arrive.
 */
module Protocol {
  import opened Basics
  import opened Session
  import opened Storage
  import opened Wire
  import opened Machines
  import opened RunLoop
  import MachineRuns
  import Enforcement
  import Registry
  import Client

  /** A running agent: the run loop, both channels to the connection task, and that task. */
  datatype Process = Process(loop: Loop, events: seq<ServerEvent>, commands: nat, client: Client.State)
  {
    function Credential(): Option<Credentials> {
      loop.state.credentials
    }
  }

  /** `locked` is history: the machines on whose behalf the computer was told to lock. */
  datatype World = World(
    server: Server,
    disk: Option<AgentState>,
    enrolling: Option<Credentials>,
    process: Option<Process>,
    locked: seq<MachineId>)

  const START := World(EMPTY, None, None, None, [])

  datatype Action =
    | Serve(op: MachineRuns.Op)
    | Redeem(machine: MachineId)     // the server's half of `enroll`
    | SaveEnrollment(now: Millis)    // the agent's half
    | AbandonEnrollment
    | Boot(mono: Millis)
    | Crash
    | Shutdown
    | Connect(sid: SocketId)
    | TakeCommand
    | SendHeartbeat
    | Receive
    | LoseLink
    | HandleEvent(mono: Millis)
    | PersistAccept
    | SendAck
    | Tick(os: Millis, mono: Millis)
    | CrashInTick(os: Millis, mono: Millis)  // after its calls to the platform, before its save

  /** The steps that the server, its operators or the network take by themselves. */
  predicate ServerSide(op: MachineRuns.Op) {
    !op.Enroll? && !op.Upgrade? && !op.Arrive? && !op.Take? && !op.Unlink?
  }

  predicate Connected(w: World) {
    w.process.Some? && w.process.value.client.link.On?
    && w.process.value.client.link.sid in w.server.registry.sockets
  }

  function SocketOf(w: World): Socket
    requires Connected(w)
  {
    w.server.registry.sockets[w.process.value.client.link.sid]
  }

  predicate LoopAt(w: World, stage: Stage) {
    w.process.Some? && w.process.value.loop.stage == stage
  }

  predicate Enabled(w: World, a: Action) {
    match a
    case Serve(op) => ServerSide(op) && MachineRuns.Enabled(w.server, op)
    case Redeem(m) => w.process.None? && w.enrolling.None? && m in w.server.rows
    case SaveEnrollment(_) => w.enrolling.Some?
    case AbandonEnrollment => w.enrolling.Some?
    case Boot(_) => w.process.None? && w.enrolling.None? && w.disk.Some? && w.disk.value.credentials.Some?
    case Crash => w.process.Some?
    case Shutdown => LoopAt(w, Selecting)
    case Connect(sid) =>
      w.process.Some? && w.process.value.client.link.Idle? && w.process.value.Credential().Some?
      && sid !in w.server.registry.sockets
    case TakeCommand => Connected(w) && w.process.value.commands > 0
    case SendHeartbeat => Connected(w) && SocketOf(w).linked
    case Receive => Connected(w) && SocketOf(w).linked && SocketOf(w).toAgent != []
    case LoseLink => Connected(w) && !SocketOf(w).linked
    case HandleEvent(_) => LoopAt(w, Selecting) && w.process.value.events != []
    case PersistAccept => LoopAt(w, Accepting)
    case SendAck => LoopAt(w, Persisted)
    case Tick(_, _) => LoopAt(w, Selecting) && w.process.value.Credential().Some?
    case CrashInTick(_, _) => LoopAt(w, Selecting) && w.process.value.Credential().Some?
  }

  function Net(w: World, op: MachineRuns.Op): World
    requires MachineRuns.Enabled(w.server, op)
  {
    w.(server := MachineRuns.Apply(w.server, op))
  }

  /** The process ends; its connection, if any, is let go. */
  function Halt(w: World): World
    requires w.process.Some?
  {
    var halted := w.(process := None);
    if Connected(w) then Net(halted, MachineRuns.Unlink(w.process.value.client.link.sid)) else halted
  }

  function Settle(w: World, p: Process, outcome: Outcome): World {
    w.(process := Some(p.(loop := outcome.loop)),
       disk := if outcome.saved then Some(outcome.loop.state) else w.disk)
  }

  /** The connection task writes to its socket. */
  function Write(w: World, sid: SocketId, sent: seq<AgentMessage>): World
    requires sent != [] ==> MachineRuns.Enabled(w.server, MachineRuns.Arrive(sid, sent[0]))
  {
    if sent == [] then w else Net(w, MachineRuns.Arrive(sid, sent[0]))
  }

  function DoConnect(w: World, sid: SocketId): World
    requires Enabled(w, Connect(sid))
  {
    var p := w.process.value;
    var c := p.Credential().value;
    var (client, sent) := Client.Connecting(p.client, sid, p.commands);
    var upgraded := Net(w, MachineRuns.Upgrade(sid, c.machineId, c.machineSecret));
    Write(upgraded.(process := Some(p.(commands := 0, client := client))), sid, sent)
  }

  function DoTakeCommand(w: World): World
    requires Enabled(w, TakeCommand)
  {
    var p := w.process.value;
    var (client, sent) := Client.Commanded(p.client, SocketOf(w).linked);
    Write(w.(process := Some(p.(commands := p.commands - 1, client := client))), p.client.link.sid, sent)
  }

  function Delivered(p: Process, frame: Frame): Process {
    var event := Client.EventOf(frame);
    p.(client := Client.Received(p.client, frame),
       events := if event.Some? then p.events + [event.value] else p.events)
  }

  function DoReceive(w: World): World
    requires Enabled(w, Receive)
  {
    var p := w.process.value;
    var sid, frame := p.client.link.sid, SocketOf(w).toAgent[0];
    var taken := Net(w, MachineRuns.Take(sid)).(process := Some(Delivered(p, frame)));
    if frame.Close? then Net(taken, MachineRuns.Unlink(sid)) else taken
  }

  function DoTick(w: World, os: Millis, mono: Millis): World
    requires Enabled(w, Tick(os, mono))
  {
    var p := w.process.value;
    var outcome := Ticked(p.loop, os, mono);
    Settle(w, p, outcome).(locked :=
      if DisableUsage in outcome.calls then w.locked + [p.Credential().value.machineId] else w.locked)
  }

  function Apply(w: World, a: Action): World
    requires Enabled(w, a)
  {
    match a
    case Serve(op) => Net(w, op)
    case Redeem(m) => Net(w, MachineRuns.Enroll(m)).(enrolling := Some(Credentials(m, w.server.nextSecret)))
    case SaveEnrollment(now) =>
      w.(disk := Some(Enforcement.Enrolled(w.disk, w.enrolling.value, now)), enrolling := None)
    case AbandonEnrollment => w.(enrolling := None)
    case Boot(mono) =>
      w.(process := Some(Process(Booted(w.disk.value, mono), [], if w.disk.value.decommissioned then 1 else 0,
                                 Client.State(Client.Idle, false))))
    case Crash => Halt(w)
    case Shutdown => Halt(w).(disk := Some(w.process.value.loop.state))
    case Connect(sid) => DoConnect(w, sid)
    case TakeCommand => DoTakeCommand(w)
    case SendHeartbeat => Net(w, MachineRuns.Arrive(w.process.value.client.link.sid, Heartbeat))
    case Receive => DoReceive(w)
    case LoseLink => w.(process := Some(w.process.value.(client := w.process.value.client.(link := Client.Idle))))
    case HandleEvent(mono) =>
      var p := w.process.value;
      Settle(w, p.(events := p.events[1..]), Handled(p.loop, p.events[0], mono))
    case PersistAccept => Settle(w, w.process.value, AcceptPersisted(w.process.value.loop))
    case SendAck =>
      var p := w.process.value;
      Settle(w, p.(commands := p.commands + 1), AcceptSent(p.loop))
    case Tick(os, mono) => DoTick(w, os, mono)
    case CrashInTick(os, mono) => Halt(w).(locked := DoTick(w, os, mono).locked)
  }

  /** The world after a history that starts at `w`, or none if some step was not possible. */
  function From(w: World, actions: seq<Action>): Option<World> {
    if actions == [] then Some(w)
    else
      var w' := From(w, actions[..|actions| - 1]);
      if w'.Some? && Enabled(w'.value, actions[|actions| - 1])
      then Some(Apply(w'.value, actions[|actions| - 1]))
      else None
  }

  /** An acknowledgement for `m` waits on a socket that the gateway listens to. */
  ghost predicate AckInFlight(s: Server, m: MachineId) {
    exists sid :: sid in s.registry.sockets && s.registry.sockets[sid].machine == m
      && s.registry.sockets[sid].Listening() && DecommissionAck in s.registry.sockets[sid].toServer
  }

  /** The standing assumption: no token of a machine is redeemed while its old acknowledgement is in flight. */
  ghost predicate Disciplined(w: World, a: Action) {
    a.Redeem? ==> !AckInFlight(w.server, a.machine)
  }

  ghost predicate DisciplinedRun(w: World, actions: seq<Action>) {
    actions == [] ||
    (DisciplinedRun(w, actions[..|actions| - 1]) &&
     (From(w, actions[..|actions| - 1]).Some? ==>
        Disciplined(From(w, actions[..|actions| - 1]).value, actions[|actions| - 1])))
  }

  /** The worlds that can come about from nothing. */
  ghost predicate Reachable(w: World) {
    exists actions :: From(START, actions) == Some(w) && DisciplinedRun(START, actions)
  }
}
