/**
  Why removal is not inevitable: what becomes of an acknowledgement that got lost.

  A process that has accepted the order ignores its repetition, so it acknowledges once for
  every command and once for every new connection, and never because it was told again. These
  are the exact conditions under which one connection can still see a removal through.
 */
module LostAcks {
  import opened Basics
  import opened Storage
  import opened Wire
  import opened Machines
  import opened RunLoop
  import opened Protocol
  import opened Safety
  import MachineRuns
  import Client
  import Progress

  /** A process that has accepted its removal, on a connection. */
  predicate Told(w: World) {
    Connected(w) && LoopAt(w, Selecting) && w.process.value.loop.decommissioned
  }

  function Sid(w: World): SocketId
    requires Connected(w)
  {
    w.process.value.client.link.sid
  }

  /** The socket is heard by the gateway, or may yet be, and an acknowledgement is on it or will be. */
  predicate CanDeliver(w: World)
    requires Connected(w)
  {
    Deliverable(w.server, SocketOf(w))
    && (DecommissionAck in SocketOf(w).toServer || (SocketOf(w).linked && w.process.value.commands > 0))
  }

  /** Nothing on this connection or behind it acknowledges. */
  predicate Stalled(w: World) {
    Told(w) && w.process.value.commands == 0 && DecommissionAck !in SocketOf(w).toServer
  }

  /** Through every step of a run that starts at `w`, one process keeps its connection. */
  ghost predicate KeepsLink(w: World, actions: seq<Action>)
    requires w.process.Some? && From(w, actions).Some?
  {
    actions == [] ||
    (KeepsLink(w, actions[..|actions| - 1]) &&
     From(w, actions).value.process.Some? &&
     From(w, actions).value.process.value.client.link == w.process.value.client.link)
  }

  /** The step is the gateway reading a message from this connection. */
  predicate ReadsFrom(a: Action, sid: SocketId) {
    a.Serve? && a.op.Handle? && a.op.sid == sid
  }

  // A connection that cannot deliver never will.

  /** What one more step on the same connection leaves as it was. */
  ghost predicate StaysSilent(w: World, a: Action)
    requires Told(w) && Enabled(w, a)
  {
    var w' := Apply(w, a);
    && Told(w') && !CanDeliver(w') && (Stalled(w) ==> Stalled(w'))
    && (ReadsFrom(a, Sid(w)) ==> w'.server.rows == w.server.rows)
  }

  lemma ServerStaysSilent(w: World, op: MachineRuns.Op)
    requires Safe(w) && Told(w) && !CanDeliver(w) && Enabled(w, Serve(op))
    ensures StaysSilent(w, Serve(op))
  {
    ServerSideStep(w.server, op);
    if ReadsFrom(Serve(op), Sid(w)) {
      assert SocketOf(w).toServer[0] in SocketOf(w).toServer;
    }
  }

  lemma ReceiveStaysSilent(w: World)
    requires Safe(w) && Told(w) && !CanDeliver(w) && Enabled(w, Receive) && !SocketOf(w).toAgent[0].Close?
    ensures StaysSilent(w, Receive)
  {
  }

  lemma StepStaysSilent(w: World, a: Action)
    requires Safe(w) && Told(w) && !CanDeliver(w) && Enabled(w, a)
    requires var w' := Apply(w, a); w'.process.Some? && w'.process.value.client.link == w.process.value.client.link
    ensures StaysSilent(w, a)
  {
    match a
    case Serve(op) => ServerStaysSilent(w, op);
    case Receive => ReceiveStaysSilent(w);
    case _ =>
  }

  /**
    On a connection that cannot deliver, no run ever delivers: it goes on being unable to for as
    long as it lives, and no message that is read from it removes a row.
   */
  lemma {:induction false} SilentUntilReconnect(w: World, actions: seq<Action>)
    requires Safe(w) && Told(w) && !CanDeliver(w)
    requires From(w, actions).Some? && DisciplinedRun(w, actions) && KeepsLink(w, actions)
    ensures var w' := From(w, actions).value;
            Safe(w') && Told(w') && Sid(w') == Sid(w) && !CanDeliver(w') && (Stalled(w) ==> Stalled(w'))
    ensures actions != [] && ReadsFrom(actions[|actions| - 1], Sid(w)) ==>
              From(w, actions).value.server.rows == From(w, actions[..|actions| - 1]).value.server.rows
  {
    if actions != [] {
      var n := |actions| - 1;
      SilentUntilReconnect(w, actions[..n]);
      StepStaysSilent(From(w, actions[..n]).value, actions[n]);
      StepKeepsSafe(From(w, actions[..n]).value, actions[n]);
    }
  }

  /**
    Stalled until it reconnects. Once the acknowledgement of a connection is lost, nothing on
    that connection repeats it, however often the process is told again and however long the
    connection lives.
   */
  lemma {:induction false} StalledUntilReconnect(w: World, actions: seq<Action>)
    requires Reachable(w) && Stalled(w)
    requires From(w, actions).Some? && DisciplinedRun(w, actions) && KeepsLink(w, actions)
    ensures Stalled(From(w, actions).value)
    ensures actions != [] && ReadsFrom(actions[|actions| - 1], Sid(w)) ==>
              From(w, actions).value.server.rows == From(w, actions[..|actions| - 1]).value.server.rows
  {
    ReachableIsSafe(w);
    if CanDeliver(w) {
      assert false;
    }
    SilentUntilReconnect(w, actions);
  }

  // A connection that can deliver may.

  /** The run ends with a message read from this connection, while it lives, that removes the row. */
  ghost predicate DeliveredBy(w: World, actions: seq<Action>)
    requires Connected(w)
  {
    && actions != [] && From(w, actions).Some? && DisciplinedRun(w, actions) && KeepsLink(w, actions)
    && ReadsFrom(actions[|actions| - 1], Sid(w))
    && SocketOf(w).machine in From(w, actions[..|actions| - 1]).value.server.rows
    && SocketOf(w).machine !in From(w, actions).value.server.rows
  }

  /** One more step of a run that keeps the connection. */
  lemma ThenLinked(start: World, actions: seq<Action>, w: World, a: Action) returns (longer: seq<Action>, w': World)
    requires start.process.Some? && From(start, actions) == Some(w) && DisciplinedRun(start, actions)
             && KeepsLink(start, actions)
    requires Enabled(w, a) && Disciplined(w, a)
    requires Apply(w, a).process.Some? && Apply(w, a).process.value.client.link == start.process.value.client.link
    ensures longer == actions + [a] && w' == Apply(w, a)
    ensures From(start, longer) == Some(w') && DisciplinedRun(start, longer) && KeepsLink(start, longer)
  {
    longer, w' := Then(start, actions, w, a);
    assert longer[..|longer| - 1] == actions;
  }

  /** Along a run that kept its connection, the removal is still pending and this is on the connection. */
  ghost predicate Delivering(start: World, actions: seq<Action>, w: World, listening: bool) {
    && Told(start) && From(start, actions) == Some(w) && DisciplinedRun(start, actions) && KeepsLink(start, actions)
    && Connected(w) && Sid(w) == Sid(start) && SocketOf(w).machine == SocketOf(start).machine
    && w.server.IsPendingDecommission(SocketOf(w).machine)
    && Deliverable(w.server, SocketOf(w)) && (listening ==> SocketOf(w).Listening())
    && DecommissionAck in SocketOf(w).toServer
  }

  lemma ReadHeartbeat(start: World, actions: seq<Action>, w: World) returns (longer: seq<Action>, w': World)
    requires Delivering(start, actions, w, true) && SocketOf(w).toServer[0].Heartbeat?
    ensures Delivering(start, longer, w', true) && |SocketOf(w').toServer| < |SocketOf(w).toServer|
  {
    longer, w' := ThenLinked(start, actions, w, Serve(MachineRuns.Handle(Sid(w), 0)));
    assert SocketOf(w').toServer == SocketOf(w).toServer[1..];
  }

  lemma ReadAck(start: World, actions: seq<Action>, w: World) returns (longer: seq<Action>)
    requires Delivering(start, actions, w, true) && SocketOf(w).toServer[0].DecommissionAck?
    ensures DeliveredBy(start, longer)
  {
    var w';
    longer, w' := ThenLinked(start, actions, w, Serve(MachineRuns.Handle(Sid(w), 0)));
    assert longer[..|longer| - 1] == actions;
  }

  /** The gateway reads the connection up to its acknowledgement. */
  lemma {:induction false} ReadUpToAck(start: World, actions: seq<Action>, w: World) returns (longer: seq<Action>)
    requires Delivering(start, actions, w, true)
    ensures DeliveredBy(start, longer)
    decreases |SocketOf(w).toServer|
  {
    if SocketOf(w).toServer[0].Heartbeat? {
      var w';
      longer, w' := ReadHeartbeat(start, actions, w);
      longer := ReadUpToAck(start, longer, w');
    } else {
      longer := ReadAck(start, actions, w);
    }
  }

  lemma TakesCommand(w: World) returns (actions: seq<Action>, w': World)
    requires Told(w) && CanDeliver(w) && w.server.IsPendingDecommission(SocketOf(w).machine)
    ensures Delivering(w, actions, w', false)
  {
    actions, w' := [], w;
    if DecommissionAck !in SocketOf(w).toServer {
      actions, w' := ThenLinked(w, actions, w, TakeCommand);
      assert SocketOf(w').toServer == SocketOf(w).toServer + [DecommissionAck];
    }
  }

  lemma GainsListener(start: World, actions: seq<Action>, w: World) returns (longer: seq<Action>, w': World)
    requires Delivering(start, actions, w, false)
    ensures Delivering(start, longer, w', true)
  {
    longer, w' := actions, w;
    if !SocketOf(w).Listening() {
      longer, w' := ThenLinked(start, actions, w, Serve(MachineRuns.Authenticate(Sid(w))));
    }
  }

  lemma DeliverOnLink(w: World) returns (actions: seq<Action>)
    requires Told(w) && CanDeliver(w) && w.server.IsPendingDecommission(SocketOf(w).machine)
    ensures DeliveredBy(w, actions)
  {
    var w';
    actions, w' := TakesCommand(w);
    actions, w' := GainsListener(w, actions, w');
    actions := ReadUpToAck(w, actions, w');
  }

  /**
    The exact condition. While its removal is pending, the connection of a process that has
    accepted it can still see it through if and only if the gateway hears that connection or can
    come to, and an acknowledgement is on it, or a command to send one waits and the link stands.
    Being told again is no part of it.
   */
  lemma AckArrivesIff(w: World)
    requires Reachable(w) && Told(w) && w.server.IsPendingDecommission(SocketOf(w).machine)
    ensures CanDeliver(w) <==> exists actions :: DeliveredBy(w, actions)
  {
    ReachableIsSafe(w);
    if CanDeliver(w) {
      var actions := DeliverOnLink(w);
    } else if actions :| DeliveredBy(w, actions) {
      SilentUntilReconnect(w, actions);
    }
  }

  // Acknowledgements can be lost again and again.

  /** Between connections, a process owes the acknowledgement of a pending removal. */
  predicate Owing(w: World, m: MachineId) {
    && LoopAt(w, Selecting) && w.process.value.loop.decommissioned && w.process.value.events == []
    && w.process.value.client.link.Idle? && (w.process.value.client.ack || w.process.value.commands > 0)
    && Presents(w, m)
  }

  /** The process holds the good credential of `m`, whose removal is pending. */
  predicate Presents(w: World, m: MachineId) {
    && w.process.Some? && w.process.value.Credential().Some?
    && w.process.value.Credential().value.machineId == m
    && w.server.IsPendingDecommission(m)
    && w.server.VerifyMachineCredential(m, w.process.value.Credential().value.machineSecret)
  }

  /** It is on a connection that stands, with these messages on the way. */
  predicate OnLine(w: World, m: MachineId, sid: SocketId, phase: Phase, toAgent: seq<Frame>,
                   toServer: seq<AgentMessage>) {
    && Told(w) && Presents(w, m) && w.process.value.events == [] && w.process.value.commands == 0
    && w.process.value.client == Client.State(Client.On(sid), true)
    && SocketOf(w) == Socket(m, w.process.value.Credential().value.machineSecret, phase, true, true, toAgent, toServer)
  }

  /** A disciplined run leads from one world to another. */
  ghost predicate Leads(w: World, actions: seq<Action>, w': World) {
    From(w, actions) == Some(w') && DisciplinedRun(w, actions)
  }

  lemma LeadsByOne(w: World, a: Action)
    requires Enabled(w, a) && !a.Redeem?
    ensures Leads(w, [a], Apply(w, a))
  {
    var actions, w' := Then(w, [], w, a);
    assert actions == [a];
  }

  lemma LastStep(w: World, actions: seq<Action>, w': World) returns (before: World)
    requires Leads(w, actions, w') && actions != []
    ensures var n := |actions| - 1;
            Leads(w, actions[..n], before) && Enabled(before, actions[n]) && Disciplined(before, actions[n])
            && w' == Apply(before, actions[n])
  {
    before := From(w, actions[..|actions| - 1]).value;
  }

  lemma {:induction false} LeadsOn(w: World, actions: seq<Action>, w': World, more: seq<Action>, w'': World)
    requires Leads(w, actions, w') && Leads(w', more, w'')
    ensures Leads(w, actions + more, w'')
  {
    if more == [] {
      assert actions + more == actions;
    } else {
      var n := |more| - 1;
      assert actions + more[..n] + [more[n]] == actions + more;
      var before := LastStep(w', more, w'');
      LeadsOn(w, actions, w', more[..n], before);
      var _, _ := Then(w, actions + more[..n], before, more[n]);
    }
  }

  /**
    A whole connection: the acknowledgement is dropped because no listener is attached yet, the
    agent is authenticated, told again, and takes in what it is told; then the link breaks.
   */
  function Round(sid: SocketId): seq<Action> {
    UntilToldAgain(sid) + [Serve(MachineRuns.Cut(sid)), LoseLink]
  }

  function UntilToldAgain(sid: SocketId): seq<Action> {
    [Connect(sid), Serve(MachineRuns.Discard(sid))]
    + [Serve(MachineRuns.Authenticate(sid)), Serve(MachineRuns.Greet(sid, None, 0))]
    + [Receive, HandleEvent(0)]
  }

  lemma LosesAck(w: World, m: MachineId, sid: SocketId) returns (w': World)
    requires Owing(w, m) && sid !in w.server.registry.sockets
    ensures Leads(w, [Connect(sid), Serve(MachineRuns.Discard(sid))], w')
    ensures OnLine(w', m, sid, Upgraded, [], []) && w'.server.rows == w.server.rows
  {
    var connected := Connects(w, m, sid);
    w' := Drops(connected, m, sid);
    LeadsOn(w, [Connect(sid)], connected, [Serve(MachineRuns.Discard(sid))], w');
  }

  lemma Connects(w: World, m: MachineId, sid: SocketId) returns (w': World)
    requires Owing(w, m) && sid !in w.server.registry.sockets
    ensures Leads(w, [Connect(sid)], w')
    ensures OnLine(w', m, sid, Upgraded, [], [DecommissionAck]) && w'.server.rows == w.server.rows
  {
    LeadsByOne(w, Connect(sid));
    w' := Apply(w, Connect(sid));
  }

  lemma Drops(w: World, m: MachineId, sid: SocketId) returns (w': World)
    requires OnLine(w, m, sid, Upgraded, [], [DecommissionAck])
    ensures Leads(w, [Serve(MachineRuns.Discard(sid))], w')
    ensures OnLine(w', m, sid, Upgraded, [], []) && w'.server.rows == w.server.rows
  {
    LeadsByOne(w, Serve(MachineRuns.Discard(sid)));
    w' := Apply(w, Serve(MachineRuns.Discard(sid)));
  }

  lemma IsWelcomed(w: World, m: MachineId, sid: SocketId) returns (w': World)
    requires OnLine(w, m, sid, Upgraded, [], [])
    ensures Leads(w, [Serve(MachineRuns.Authenticate(sid)), Serve(MachineRuns.Greet(sid, None, 0))], w')
    ensures OnLine(w', m, sid, Greeted, [DecommissionOrder], []) && w'.server.rows == w.server.rows
  {
    var authenticated := IsAuthenticated(w, m, sid);
    w' := IsGreeted(authenticated, m, sid);
    LeadsOn(w, [Serve(MachineRuns.Authenticate(sid))], authenticated, [Serve(MachineRuns.Greet(sid, None, 0))], w');
  }

  lemma IsAuthenticated(w: World, m: MachineId, sid: SocketId) returns (w': World)
    requires OnLine(w, m, sid, Upgraded, [], [])
    ensures Leads(w, [Serve(MachineRuns.Authenticate(sid))], w')
    ensures OnLine(w', m, sid, Registered, [], []) && w'.server.rows == w.server.rows
  {
    LeadsByOne(w, Serve(MachineRuns.Authenticate(sid)));
    w' := Apply(w, Serve(MachineRuns.Authenticate(sid)));
  }

  lemma IsGreeted(w: World, m: MachineId, sid: SocketId) returns (w': World)
    requires OnLine(w, m, sid, Registered, [], [])
    ensures Leads(w, [Serve(MachineRuns.Greet(sid, None, 0))], w')
    ensures OnLine(w', m, sid, Greeted, [DecommissionOrder], []) && w'.server.rows == w.server.rows
  {
    LeadsByOne(w, Serve(MachineRuns.Greet(sid, None, 0)));
    w' := Apply(w, Serve(MachineRuns.Greet(sid, None, 0)));
  }

  /** The repeated order is received and handled, and changes nothing. */
  lemma IsToldAgain(w: World, m: MachineId, sid: SocketId) returns (w': World)
    requires OnLine(w, m, sid, Greeted, [DecommissionOrder], [])
    ensures Leads(w, [Receive, HandleEvent(0)], w')
    ensures OnLine(w', m, sid, Greeted, [], []) && w'.server.rows == w.server.rows
  {
    var received := Apply(w, Receive);
    ReceiveOrder(w);
    LeadsByOne(w, Receive);
    w' := Ignores(received, m, sid);
    LeadsOn(w, [Receive], received, [HandleEvent(0)], w');
  }

  lemma Ignores(w: World, m: MachineId, sid: SocketId) returns (w': World)
    requires w.process.Some? && w.process.value.events == [Decommission]
    requires OnLine(w.(process := Some(w.process.value.(events := []))), m, sid, Greeted, [], [])
    ensures Leads(w, [HandleEvent(0)], w')
    ensures OnLine(w', m, sid, Greeted, [], []) && w'.server.rows == w.server.rows
  {
    LeadsByOne(w, HandleEvent(0));
    w' := Apply(w, HandleEvent(0));
    assert w.process.value.events[1..] == [];
  }

  lemma IsCutOff(w: World, m: MachineId, sid: SocketId) returns (w': World)
    requires OnLine(w, m, sid, Greeted, [], [])
    ensures Leads(w, [Serve(MachineRuns.Cut(sid)), LoseLink], w')
    ensures Owing(w', m) && w'.server.rows == w.server.rows
  {
    var cut := Apply(w, Serve(MachineRuns.Cut(sid)));
    LeadsByOne(w, Serve(MachineRuns.Cut(sid)));
    LeadsByOne(cut, LoseLink);
    w' := Apply(cut, LoseLink);
    LeadsOn(w, [Serve(MachineRuns.Cut(sid))], cut, [LoseLink], w');
  }

  lemma ReachesStall(w: World, m: MachineId, sid: SocketId) returns (w': World)
    requires Owing(w, m) && sid !in w.server.registry.sockets
    ensures Leads(w, UntilToldAgain(sid), w')
    ensures OnLine(w', m, sid, Greeted, [], []) && w'.server.rows == w.server.rows
  {
    var lost := LosesAck(w, m, sid);
    var welcomed := IsWelcomed(lost, m, sid);
    w' := IsToldAgain(welcomed, m, sid);
    var drop, welcome := [Connect(sid), Serve(MachineRuns.Discard(sid))],
                         [Serve(MachineRuns.Authenticate(sid)), Serve(MachineRuns.Greet(sid, None, 0))];
    LeadsOn(w, drop, lost, welcome, welcomed);
    LeadsOn(w, drop + welcome, welcomed, [Receive, HandleEvent(0)], w');
  }

  function Rounds(sids: seq<SocketId>): seq<Action> {
    if sids == [] then [] else Rounds(sids[..|sids| - 1]) + Round(sids[|sids| - 1])
  }

  /**
    From any world in which an acknowledgement is owed, for every `n`, there are `n` whole
    connections in a row, each authenticated, greeted and told again, that all lose it: the row
    stays as it was, and the acknowledgement is still owed.
   */
  lemma {:induction false} AcksCanBeLostForever(w: World, m: MachineId, n: nat) returns (sids: seq<SocketId>, w': World)
    requires Owing(w, m)
    ensures |sids| == n && Leads(w, Rounds(sids), w')
    ensures Owing(w', m) && w'.server.rows == w.server.rows
  {
    if n == 0 {
      sids, w' := [], w;
    } else {
      var earlier, before := AcksCanBeLostForever(w, m, n - 1);
      var sid := Progress.Fresh(before.server.registry.sockets.Keys);
      var stalled := ReachesStall(before, m, sid);
      w' := IsCutOff(stalled, m, sid);
      LeadsOn(before, UntilToldAgain(sid), stalled, [Serve(MachineRuns.Cut(sid)), LoseLink], w');
      LeadsOn(w, Rounds(earlier), before, Round(sid), w');
      sids := earlier + [sid];
      assert sids[..n - 1] == earlier;
    }
  }

  /** Such a world comes about: the agent crashes after accepting, before acknowledging. */
  lemma OwingIsReachable() returns (actions: seq<Action>, w: World)
    ensures Leads(START, actions, w) && Owing(w, 0)
  {
    var persisted, crashed;
    actions, persisted := PersistedOrder();
    actions, crashed := Then(START, actions, persisted, Crash);
    actions, w := Then(START, actions, crashed, Boot(0));
  }

  /**
    And a stalled one: on a live connection, the acknowledgement was dropped, and the order was
    repeated and handled, in exactly these steps from a reachable world that owed it.
   */
  lemma StallIsReachable() returns (owing: World, w: World, sid: SocketId)
    ensures Reachable(owing) && Owing(owing, 0) && Leads(owing, UntilToldAgain(sid), w)
    ensures Reachable(w) && Stalled(w) && OnLine(w, 0, sid, Greeted, [], [])
  {
    var actions;
    actions, owing := OwingIsReachable();
    sid := Progress.Fresh(owing.server.registry.sockets.Keys);
    w := ReachesStall(owing, 0, sid);
    LeadsOn(START, actions, owing, UntilToldAgain(sid), w);
  }
}
