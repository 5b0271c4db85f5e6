/**
  From the operator's button to the locked screen: what the server's session table says is what
  the computer enforces.

  The server pushes a machine's session on every change and on every connect
  (api/src/modules/sessions/sessions.service.ts, api/src/modules/realtime/realtime.gateway.ts);
  the pushes reach the computer in any order, any number of times, or never.
 */
module EndToEnd {
  import opened Basics
  import opened Session
  import opened Usage
  import opened Sessions
  import opened SessionRuns
  import opened Storage
  import RunLoop
  import Enforcement
  import Wire
  import Client
  import Machines
  import MachineRuns
  import ServerEffects

  const NOTHING := Table([], {}, 0)

  /** The server's clock does not go back. */
  predicate Orderly(calls: seq<Call>) {
    forall i, j :: 0 <= i < j < |calls| ==> calls[i].now <= calls[j].now
  }

  /** `toDto`; `name` writes out a row's id. */
  function Snapshot(r: Row, name: nat -> string): SessionSnapshot {
    SessionSnapshot(name(r.id), r.usage.startedAt, r.usage.expiresAt, r.usage.status, r.updatedAt)
  }

  /** How the agent dates a push: by the session it carries, or by the server's time. */
  function MessageOf(session: Option<Row>, now: Millis, name: nat -> string): Enforcement.Message {
    match session
    case None => Enforcement.Message(None, now)
    case Some(r) => Enforcement.Message(Some(Snapshot(r, name)), r.updatedAt)
  }

  /** The frame that carries a push. */
  function FrameOf(session: Option<Row>, now: Millis, name: nat -> string): Wire.Frame {
    Wire.SessionUpdate(if session.Some? then Some(Snapshot(session.value, name)) else None, now)
  }

  /** What the agent makes of that frame is the message, dated as the model of its run loop dates it. */
  lemma FrameIsHeard(session: Option<Row>, now: Millis, name: nat -> string)
    ensures var message := MessageOf(session, now, name);
            Client.EventOf(FrameOf(session, now, name)) == Some(RunLoop.SessionState(message.session, message.time))
  {
  }

  /** A push to a machine whose registered socket is open is the last thing on that socket. */
  lemma PushCrosses(s: Machines.Server, m: MachineId, session: Option<Row>, now: Millis, name: nat -> string)
    requires m in s.rows && m in s.registry.agents && s.registry.agents[m] in s.registry.sockets
    requires s.registry.sockets[s.registry.agents[m]].open
    ensures var frame := FrameOf(session, now, name);
            var s' := MachineRuns.Apply(s, MachineRuns.Push(m, frame.session, now));
            var sid := s.registry.agents[m];
            sid in s'.registry.sockets
            && s'.registry.sockets[sid].toAgent == s.registry.sockets[sid].toAgent + [frame]
  {
    ServerEffects.PushIsDelivered(s, m, FrameOf(session, now, name).session, now);
  }

  /** The active row of a machine: the one that `findFirst` returns. */
  function ActiveRow(rows: seq<Row>, m: MachineId): (r: Option<Row>)
    ensures r.Some? ==> r.value in rows && IsActive(r.value) && r.value.usage.machineId == m
    ensures r.None? ==> !ActiveOn(rows, m)
  {
    if rows == [] then None
    else
      var n := |rows| - 1;
      assert rows == rows[..n] + [rows[n]];
      if IsActive(rows[n]) && rows[n].usage.machineId == m then Some(rows[n])
      else
        var r := ActiveRow(rows[..n], m);
        assert r.None? ==> forall i :: 0 <= i < n ==> rows[..n][i] == rows[i];
        r
  }

  /** What a call at `now` pushes to machine `m`; `Get` is the push on its connect. */
  function PushOf(t: Table, call: Call, m: MachineId, name: nat -> string): Option<Enforcement.Message> {
    var t' := Apply(t, call.op, call.now);
    match call.op
    case Start(machine, _) =>
      if machine == m && |t'.rows| > |t.rows|
      then Some(MessageOf(Some(t'.rows[|t'.rows| - 1]), call.now, name)) else None
    case Extend(id, _) => Updated(t, t', id, call.now, m, name)
    case End(id) => Updated(t, t', id, call.now, m, name)
    case Get(machine) => if machine == m then Some(MessageOf(ActiveRow(t'.rows, m), call.now, name)) else None
    case _ => None
  }

  function Updated(t: Table, t': Table, id: nat, now: Millis, m: MachineId, name: nat -> string)
    : Option<Enforcement.Message>
  {
    var i := Find(t.rows, id);
    if i >= 0 && Current(t.rows[i], now) && t.rows[i].usage.machineId == m && i < |t'.rows|
    then Some(MessageOf(Some(t'.rows[i]), now, name)) else None
  }

  /** What each call of a history pushes to `m`. */
  function Pushes(calls: seq<Call>, m: MachineId, name: nat -> string): (pushes: seq<Option<Enforcement.Message>>)
    ensures |pushes| == |calls|
  {
    if calls == [] then []
    else
      var n := |calls| - 1;
      Pushes(calls[..n], m, name) + [PushOf(After(NOTHING, calls[..n]), calls[n], m, name)]
  }

  function PushAt(calls: seq<Call>, k: nat, m: MachineId, name: nat -> string): Option<Enforcement.Message>
    requires k < |calls|
  {
    Pushes(calls, m, name)[k]
  }

  // The active row of a machine is dated by the last change to it.

  ghost predicate Dated(t: Table, now: Millis) {
    Consistent(t, now) && forall r :: r in t.rows ==> r.updatedAt <= now
  }

  lemma SweptRows(rows: seq<Row>, machine: Option<MachineId>, now: Millis, r: Row)
    requires r in Swept(rows, machine, now)
    ensures r in rows || (!IsActive(r) && r.updatedAt == now)
  {
    var i :| 0 <= i < |rows| && Swept(rows, machine, now)[i] == r;
    assert rows[i] in rows;
  }

  /** A row of the table after a call was there before, or is dated now. */
  lemma RowsAfter(t: Table, call: Call, r: Row)
    requires r in Apply(t, call.op, call.now).rows
    ensures r in t.rows || r.updatedAt == call.now
  {
    match call.op
    case Start(m, minutes) =>
      if m in t.machines && r in Swept(t.rows, Some(m), call.now) {
        SweptRows(t.rows, Some(m), call.now, r);
      }
    case Get(m) => SweptRows(t.rows, Some(m), call.now, r);
    case Sweep => SweptRows(t.rows, None, call.now, r);
    case DeleteMachine(m) => DeletionCascades(t.rows, m, r);
    case _ =>
  }

  lemma StepKeepsDated(t: Table, call: Call, since: Millis)
    requires Dated(t, since) && since <= call.now
    ensures Dated(Apply(t, call.op, call.now), call.now)
  {
    StepKeepsConsistent(t, call, since);
    forall r | r in Apply(t, call.op, call.now).rows ensures r.updatedAt <= call.now {
      RowsAfter(t, call, r);
    }
  }

  function LastInstant(calls: seq<Call>): Millis {
    if calls == [] then 0 else calls[|calls| - 1].now
  }

  lemma {:induction false} AlwaysDated(calls: seq<Call>)
    requires Orderly(calls)
    ensures Dated(After(NOTHING, calls), LastInstant(calls))
  {
    if calls != [] {
      var n := |calls| - 1;
      AlwaysDated(calls[..n]);
      if n > 0 {
        StepKeepsDated(After(NOTHING, calls[..n]), calls[n], calls[n - 1].now);
      } else {
        StepKeepsDated(NOTHING, calls[n], calls[n].now);
      }
    }
  }

  lemma OneActive(t: Table, now: Millis, a: Row, b: Row)
    requires Consistent(t, now) && a in t.rows && b in t.rows
    requires IsActive(a) && IsActive(b) && a.usage.machineId == b.usage.machineId
    ensures a == b
  {
    forall i, j | 0 <= i < j < |t.rows| && t.rows[i].usage.machineId == t.rows[j].usage.machineId
      ensures !IsActive(t.rows[i])
    {
      assert Follows(t.rows[i].usage, t.rows[j].usage);
    }
    var i :| 0 <= i < |t.rows| && t.rows[i] == a;
    var j :| 0 <= j < |t.rows| && t.rows[j] == b;
  }

  // What a push says.

  predicate ActiveFor(r: Row, m: MachineId) {
    IsActive(r) && r.usage.machineId == m
  }

  /** It carries the one active row of its machine, or is dated now and there is none. */
  ghost predicate Tells(p: Enforcement.Message, t: Table, m: MachineId, now: Millis, name: nat -> string) {
    if exists r :: r in t.rows && ActiveFor(r, m)
    then exists r :: r in t.rows && ActiveFor(r, m) && p == MessageOf(Some(r), now, name)
    else p.time == now && (p.session.Some? ==> !p.session.value.status.Active?)
  }

  lemma StartTells(t: Table, call: Call, since: Millis, m: MachineId, name: nat -> string)
    requires Dated(t, since) && since <= call.now && call.op.Start? && PushOf(t, call, m, name).Some?
    ensures Tells(PushOf(t, call, m, name).value, Apply(t, call.op, call.now), m, call.now, name)
  {
    var rows := Apply(t, call.op, call.now).rows;
    var r := rows[|rows| - 1];
    assert r in rows && ActiveFor(r, m);
  }

  lemma GetTells(t: Table, call: Call, m: MachineId, name: nat -> string)
    requires call.op.Get? && PushOf(t, call, m, name).Some?
    ensures Tells(PushOf(t, call, m, name).value, Apply(t, call.op, call.now), m, call.now, name)
  {
    var rows := Apply(t, call.op, call.now).rows;
    var r := ActiveRow(rows, m);
    if r.Some? {
      assert r.value in rows && ActiveFor(r.value, m);
    } else {
      forall other | other in rows ensures !ActiveFor(other, m) {
        var i :| 0 <= i < |rows| && rows[i] == other;
      }
    }
  }

  lemma UpdateTells(t: Table, call: Call, since: Millis, m: MachineId, name: nat -> string)
    requires Dated(t, since) && since <= call.now && (call.op.Extend? || call.op.End?) && PushOf(t, call, m, name).Some?
    ensures Tells(PushOf(t, call, m, name).value, Apply(t, call.op, call.now), m, call.now, name)
  {
    var t' := Apply(t, call.op, call.now);
    var i := Find(t.rows, call.op.id);
    assert t'.rows[i] in t'.rows;
    if call.op.End? {
      forall j | i < j < |t.rows| ensures t.rows[j].usage.machineId != m {
        assert Follows(t.rows[i].usage, t.rows[j].usage);
      }
      forall j | 0 <= j < i ensures !ActiveFor(t.rows[j], m) {
        assert Follows(t.rows[j].usage, t.rows[i].usage);
      }
      forall other | other in t'.rows ensures !ActiveFor(other, m) {
        var j :| 0 <= j < |t'.rows| && t'.rows[j] == other;
      }
    }
  }

  lemma PushTells(t: Table, call: Call, since: Millis, m: MachineId, name: nat -> string)
    requires Dated(t, since) && since <= call.now && PushOf(t, call, m, name).Some?
    ensures Tells(PushOf(t, call, m, name).value, Apply(t, call.op, call.now), m, call.now, name)
  {
    match call.op
    case Start(_, _) => StartTells(t, call, since, m, name);
    case Get(_) => GetTells(t, call, m, name);
    case _ => UpdateTells(t, call, since, m, name);
  }

  // Older pushes are older, or the same.

  /** Message `q` is dated before the last change to the active row, or carries that very row. */
  ghost predicate Older(q: Enforcement.Message, t: Table, m: MachineId, name: nat -> string) {
    forall r :: r in t.rows && ActiveFor(r, m) ==> q.time < r.updatedAt || q == MessageOf(Some(r), 0, name)
  }

  /** A call that pushes nothing to `m` makes none of its rows active. */
  lemma QuietActivatesNothing(t: Table, call: Call, m: MachineId, name: nat -> string, r: Row)
    requires PushOf(t, call, m, name).None? && r in Apply(t, call.op, call.now).rows && ActiveFor(r, m)
    ensures r in t.rows
  {
    match call.op
    case Start(machine, minutes) =>
      if machine in t.machines && r in Swept(t.rows, Some(machine), call.now) {
        SweptRows(t.rows, Some(machine), call.now, r);
      }
    case Get(machine) => SweptRows(t.rows, Some(machine), call.now, r);
    case Sweep => SweptRows(t.rows, None, call.now, r);
    case DeleteMachine(machine) => DeletionCascades(t.rows, machine, r);
    case _ =>
  }

  lemma StepKeepsOlder(q: Enforcement.Message, t: Table, call: Call, m: MachineId, name: nat -> string)
    requires Older(q, t, m, name) && (PushOf(t, call, m, name).Some? ==> q.time < call.now)
    ensures Older(q, Apply(t, call.op, call.now), m, name)
  {
    forall r | r in Apply(t, call.op, call.now).rows && ActiveFor(r, m)
      ensures q.time < r.updatedAt || q == MessageOf(Some(r), 0, name)
    {
      if PushOf(t, call, m, name).Some? {
        RowsAfter(t, call, r);
      } else {
        QuietActivatesNothing(t, call, m, name, r);
      }
    }
  }

  lemma NewIsOlder(t: Table, call: Call, since: Millis, m: MachineId, name: nat -> string)
    requires Dated(t, since) && since <= call.now && PushOf(t, call, m, name).Some?
    ensures var p := PushOf(t, call, m, name).value;
            p.time <= call.now && Older(p, Apply(t, call.op, call.now), m, name)
  {
    var t' := Apply(t, call.op, call.now);
    StepKeepsDated(t, call, since);
    PushTells(t, call, since, m, name);
    forall r | r in t'.rows && ActiveFor(r, m)
      ensures PushOf(t, call, m, name).value == MessageOf(Some(r), 0, name)
    {
      var s :| s in t'.rows && ActiveFor(s, m) && PushOf(t, call, m, name).value == MessageOf(Some(s), call.now, name);
      OneActive(t', call.now, r, s);
    }
  }

  /** No two pushes to machine `m` fall in the same millisecond. */
  ghost predicate OneByOne(calls: seq<Call>, m: MachineId, name: nat -> string) {
    forall i, j :: 0 <= i < j < |calls| && PushAt(calls, i, m, name).Some? && PushAt(calls, j, m, name).Some? ==>
      calls[i].now < calls[j].now
  }

  lemma {:induction false} PushesBefore(calls: seq<Call>, n: nat, m: MachineId, name: nat -> string)
    requires n <= |calls|
    ensures Pushes(calls[..n], m, name) == Pushes(calls, m, name)[..n]
  {
    if n == |calls| {
      assert calls[..n] == calls;
    } else {
      var last := |calls| - 1;
      assert calls[..last][..n] == calls[..n];
      PushesBefore(calls[..last], n, m, name);
    }
  }

  lemma {:induction false} OneByOneBefore(calls: seq<Call>, n: nat, m: MachineId, name: nat -> string)
    requires OneByOne(calls, m, name) && n <= |calls|
    ensures OneByOne(calls[..n], m, name)
  {
    PushesBefore(calls, n, m, name);
  }

  function Since(calls: seq<Call>): Millis
    requires calls != []
  {
    if |calls| == 1 then calls[0].now else calls[|calls| - 2].now
  }

  lemma {:induction false} DatedSince(calls: seq<Call>)
    requires calls != [] && Orderly(calls)
    ensures Dated(After(NOTHING, calls[..|calls| - 1]), Since(calls)) && Since(calls) <= calls[|calls| - 1].now
  {
    AlwaysDated(calls[..|calls| - 1]);
  }

  lemma {:induction false} OlderNow(calls: seq<Call>, m: MachineId, name: nat -> string, q: Enforcement.Message)
    requires calls != [] && Orderly(calls) && PushAt(calls, |calls| - 1, m, name) == Some(q)
    ensures q.time <= calls[|calls| - 1].now && Older(q, After(NOTHING, calls), m, name)
  {
    var n := |calls| - 1;
    DatedSince(calls);
    NewIsOlder(After(NOTHING, calls[..n]), calls[n], Since(calls), m, name);
  }

  lemma {:induction false} OlderLater(calls: seq<Call>, m: MachineId, name: nat -> string, q: Enforcement.Message)
    requires calls != [] && Older(q, After(NOTHING, calls[..|calls| - 1]), m, name)
    requires PushAt(calls, |calls| - 1, m, name).Some? ==> q.time < calls[|calls| - 1].now
    ensures Older(q, After(NOTHING, calls), m, name)
  {
    var n := |calls| - 1;
    StepKeepsOlder(q, After(NOTHING, calls[..n]), calls[n], m, name);
  }

  lemma {:induction false} PushesAreOlder(calls: seq<Call>, k: nat, m: MachineId, name: nat -> string,
                                          q: Enforcement.Message)
    requires Orderly(calls) && OneByOne(calls, m, name) && k < |calls| && PushAt(calls, k, m, name) == Some(q)
    ensures q.time <= calls[k].now && Older(q, After(NOTHING, calls), m, name)
  {
    var n := |calls| - 1;
    if k == n {
      OlderNow(calls, m, name, q);
    } else {
      PushesBefore(calls, n, m, name);
      OneByOneBefore(calls, n, m, name);
      PushesAreOlder(calls[..n], k, m, name, q);
      OlderLater(calls, m, name, q);
    }
  }

  ghost predicate Pushed(calls: seq<Call>, m: MachineId, name: nat -> string, q: Enforcement.Message) {
    exists k :: 0 <= k < |calls| && PushAt(calls, k, m, name) == Some(q)
  }

  lemma {:induction false} LastPush(calls: seq<Call>, m: MachineId, name: nat -> string)
    requires calls != [] && Orderly(calls) && PushAt(calls, |calls| - 1, m, name).Some?
    ensures Tells(PushAt(calls, |calls| - 1, m, name).value, After(NOTHING, calls), m, calls[|calls| - 1].now, name)
  {
    var n := |calls| - 1;
    DatedSince(calls);
    PushTells(After(NOTHING, calls[..n]), calls[n], Since(calls), m, name);
  }

  lemma NewerThan(p: Enforcement.Message, q: Enforcement.Message, t: Table, m: MachineId, now: Millis,
                  name: nat -> string)
    requires Tells(p, t, m, now, name) && Older(q, t, m, name) && q.time < now
    ensures q.time < p.time || q == p
  {
  }

  lemma {:induction false} EarlierIsOlder(calls: seq<Call>, k: nat, m: MachineId, name: nat -> string,
                                          p: Enforcement.Message, q: Enforcement.Message)
    requires Orderly(calls) && OneByOne(calls, m, name) && k + 1 < |calls|
    requires PushAt(calls, k, m, name) == Some(q) && PushAt(calls, |calls| - 1, m, name) == Some(p)
    ensures q.time < p.time || q == p
  {
    PushesAreOlder(calls, k, m, name, q);
    LastPush(calls, m, name);
    NewerThan(p, q, After(NOTHING, calls), m, calls[|calls| - 1].now, name);
  }

  /** The push of the last call is newer than every other push, except where it repeats one. */
  lemma {:induction false} LastPushIsNewest(calls: seq<Call>, m: MachineId, name: nat -> string, q: Enforcement.Message)
    requires calls != [] && Orderly(calls) && OneByOne(calls, m, name)
    requires PushAt(calls, |calls| - 1, m, name).Some? && Pushed(calls, m, name, q)
    ensures var p := PushAt(calls, |calls| - 1, m, name).value; q.time < p.time || q == p
  {
    var k :| 0 <= k < |calls| && PushAt(calls, k, m, name) == Some(q);
    if k + 1 < |calls| {
      EarlierIsOlder(calls, k, m, name, PushAt(calls, |calls| - 1, m, name).value, q);
    }
  }

  /** The table has an active session of the machine whose deadline is ahead of `now`. */
  ghost predicate TableAllows(t: Table, m: MachineId, now: Millis) {
    exists r :: r in t.rows && ActiveFor(r, m) && now < r.usage.expiresAt
  }

  /** What the last push allows is what the table says. */
  lemma {:induction false} LastPushIsTheTable(calls: seq<Call>, m: MachineId, name: nat -> string, now: Millis)
    requires calls != [] && Orderly(calls) && PushAt(calls, |calls| - 1, m, name).Some?
    ensures Usable(PushAt(calls, |calls| - 1, m, name).value.session, now) <==>
            TableAllows(After(NOTHING, calls), m, now)
  {
    var t := After(NOTHING, calls);
    LastPush(calls, m, name);
    AlwaysDated(calls);
    if a, b :| a in t.rows && ActiveFor(a, m) && b in t.rows && ActiveFor(b, m) && a != b {
      OneActive(t, LastInstant(calls), a, b);
    }
  }

  // Calls that leave a machine alone.

  /** The call pushes nothing to `m`, does not delete it, and does not expire its session. */
  ghost predicate Leaves(t: Table, call: Call, m: MachineId, name: nat -> string) {
    && PushOf(t, call, m, name).None? && call.op != DeleteMachine(m)
    && (call.op.Sweep? ==> forall r :: r in t.rows && ActiveFor(r, m) ==> !Stale(r, call.now))
  }

  ghost predicate SameActive(t: Table, t': Table, m: MachineId) {
    forall r :: ActiveFor(r, m) ==> (r in t.rows <==> r in t'.rows)
  }

  lemma SweptKeeps(rows: seq<Row>, machine: Option<MachineId>, now: Millis, r: Row)
    requires r in rows && (!Stale(r, now) || (machine.Some? && machine.value != r.usage.machineId))
    ensures r in Swept(rows, machine, now)
  {
    var i :| 0 <= i < |rows| && rows[i] == r;
    assert Swept(rows, machine, now)[i] == r;
  }

  lemma UpdateKeeps(rows: seq<Row>, i: nat, row: Row, r: Row)
    requires i < |rows| && r in rows && r != rows[i]
    ensures r in rows[i := row]
  {
    var j :| 0 <= j < |rows| && rows[j] == r;
    assert rows[i := row][j] == r;
  }

  /** A start that fails has expired nothing of its machine that was active. */
  lemma StartKeeps(t: Table, call: Call, m: MachineId, name: nat -> string, r: Row, since: Millis)
    requires Consistent(t, since) && call.op.Start? && PushOf(t, call, m, name).None? && r in t.rows && ActiveFor(r, m)
    ensures r in Apply(t, call.op, call.now).rows
  {
    var machine := call.op.machine;
    if machine in t.machines {
      var swept := Swept(t.rows, Some(machine), call.now);
      if machine != m {
        SweptKeeps(t.rows, Some(machine), call.now, r);
        assert forall x :: x in swept ==> x in swept + [Started(machine, t.nextId, call.op.minutes, call.now)];
      } else {
        var i :| 0 <= i < |swept| && IsActive(swept[i]) && swept[i].usage.machineId == m;
        assert swept[i] == t.rows[i] && t.rows[i] in t.rows && swept[i] in swept;
        OneActive(t, since, r, t.rows[i]);
      }
    }
  }

  lemma LeavesAlone(t: Table, call: Call, m: MachineId, name: nat -> string, since: Millis)
    requires Consistent(t, since) && Leaves(t, call, m, name)
    ensures SameActive(t, Apply(t, call.op, call.now), m)
  {
    var t' := Apply(t, call.op, call.now);
    forall r | ActiveFor(r, m) && r in t'.rows ensures r in t.rows {
      QuietActivatesNothing(t, call, m, name, r);
    }
    forall r | ActiveFor(r, m) && r in t.rows ensures r in t'.rows {
      match call.op
      case Start(_, _) => StartKeeps(t, call, m, name, r, since);
      case Get(machine) => SweptKeeps(t.rows, Some(machine), call.now, r);
      case Sweep => SweptKeeps(t.rows, None, call.now, r);
      case DeleteMachine(gone) => DeletionCascades(t.rows, gone, r);
      case Extend(id, minutes) =>
        var i := Find(t.rows, id);
        if i >= 0 && Current(t.rows[i], call.now) {
          UpdateKeeps(t.rows, i, Extended(t.rows[i], minutes, call.now), r);
        }
      case End(id) =>
        var i := Find(t.rows, id);
        if i >= 0 && Current(t.rows[i], call.now) {
          UpdateKeeps(t.rows, i, Finished(t.rows[i], call.now), r);
        }
      case AddMachine(_) =>
    }
  }

  /** Every call from the `k`-th on leaves `m` alone. */
  ghost predicate LeftFrom(calls: seq<Call>, k: nat, m: MachineId, name: nat -> string) {
    forall j :: k <= j < |calls| ==> Leaves(After(NOTHING, calls[..j]), calls[j], m, name)
  }

  lemma {:induction false} LeftOnce(calls: seq<Call>, m: MachineId, name: nat -> string)
    requires calls != [] && Orderly(calls)
    requires Leaves(After(NOTHING, calls[..|calls| - 1]), calls[|calls| - 1], m, name)
    ensures SameActive(After(NOTHING, calls[..|calls| - 1]), After(NOTHING, calls), m)
  {
    var n := |calls| - 1;
    DatedSince(calls);
    LeavesAlone(After(NOTHING, calls[..n]), calls[n], m, name, Since(calls));
  }

  lemma LeftBefore(calls: seq<Call>, n: nat, k: nat, m: MachineId, name: nat -> string)
    requires n <= |calls| && LeftFrom(calls, k, m, name)
    ensures LeftFrom(calls[..n], k, m, name)
  {
    forall j | k <= j < n ensures Leaves(After(NOTHING, calls[..n][..j]), calls[..n][j], m, name) {
      assert calls[..n][..j] == calls[..j];
    }
  }

  lemma {:induction false} LeftAlone(calls: seq<Call>, k: nat, m: MachineId, name: nat -> string)
    requires Orderly(calls) && k <= |calls| && LeftFrom(calls, k, m, name)
    ensures SameActive(After(NOTHING, calls[..k]), After(NOTHING, calls), m)
  {
    var n := |calls| - 1;
    if k == |calls| {
      assert calls[..k] == calls;
    } else {
      assert calls[..n][..k] == calls[..k];
      LeftBefore(calls, n, k, m, name);
      LeftAlone(calls[..n], k, m, name);
      LeftOnce(calls, m, name);
    }
  }

  // The computer.

  /** A managed agent between two steps. */
  predicate Enforcing(c: Enforcement.Computer) {
    Enforcement.Running(c, RunLoop.Selecting) && !c.process.value.decommissioned
  }

  /**
    The computer enforces the server's table. Call `k` pushed `p` to machine `m`, and the active
    session of `m` has not changed since. Suppose an agent has heard `p`, and whatever else it
    heard is older, in any order, any number of times, with any losses, crashes and restarts
    between. Then a tick lets the machine be used if and only if the table allows it at trusted
    time, and `p` is newer than the baseline that the agent took when it enrolled.
   */
  lemma {:induction false} TableIsEnforced(calls: seq<Call>, k: nat, m: MachineId, name: nat -> string,
                                           actions: seq<Enforcement.Action>, os: Millis, mono: Millis)
    requires Orderly(calls) && k < |calls| && PushAt(calls, k, m, name).Some?
    requires SameActive(After(NOTHING, calls[..k + 1]), After(NOTHING, calls), m)
    requires Enforcement.Reached(actions).Some? && Enforcing(Enforcement.Reached(actions).value)
    requires var heard, p := Enforcement.Reached(actions).value.heard, PushAt(calls, k, m, name).value;
             p in heard && forall q :: q in heard ==> q.time < p.time || q == p
    ensures var c := Enforcement.Reached(actions).value;
            var outcome := RunLoop.Ticked(c.process.value, os, mono);
            RunLoop.DisableUsage !in outcome.calls <==>
              PushAt(calls, k, m, name).value.time > c.base
              && TableAllows(After(NOTHING, calls), m, outcome.loop.clock.mark)
  {
    var c, p := Enforcement.Reached(actions).value, PushAt(calls, k, m, name).value;
    var now := RunLoop.Ticked(c.process.value, os, mono).loop.clock.mark;
    Enforcement.EnforcementRefinesMessages(actions, os, mono);
    NewestGoverns(c.heard, c.base, p, now);
    PushesBefore(calls, k + 1, m, name);
    LastPushIsTheTable(calls[..k + 1], m, name, now);
  }

  /** A message newer than all others heard decides, if it is newer than the baseline. */
  lemma NewestGoverns(heard: seq<Enforcement.Message>, base: Millis, p: Enforcement.Message, now: Millis)
    requires p in heard && forall q :: q in heard ==> q.time < p.time || q == p
    ensures Enforcement.SpecAllowed(heard, base, now) <==> p.time > base && Usable(p.session, now)
  {
    Enforcement.SpecIsGovernor(heard, base, now);
    Enforcement.GovernorGoverns(heard, base);
    var i := Enforcement.Governor(heard, base);
    var j :| 0 <= j < |heard| && heard[j] == p;
    if i >= 0 {
      assert heard[i] in heard && heard[j].time <= heard[i].time;
    }
  }

  /**
    So with pushes to one machine at distinct instants, an agent that heard nothing but the
    server's pushes, the latest among them, enforces the table; calls after it that leave the
    machine alone make no difference.
   */
  lemma {:induction false} ServerIsObeyed(calls: seq<Call>, k: nat, m: MachineId, name: nat -> string,
                                          actions: seq<Enforcement.Action>, os: Millis, mono: Millis)
    requires Orderly(calls) && OneByOne(calls, m, name) && k < |calls| && PushAt(calls, k, m, name).Some?
    requires LeftFrom(calls, k + 1, m, name)
    requires Enforcement.Reached(actions).Some? && Enforcing(Enforcement.Reached(actions).value)
    requires var heard := Enforcement.Reached(actions).value.heard;
             PushAt(calls, k, m, name).value in heard && forall q :: q in heard ==> Pushed(calls, m, name, q)
    ensures var c := Enforcement.Reached(actions).value;
            var outcome := RunLoop.Ticked(c.process.value, os, mono);
            RunLoop.DisableUsage !in outcome.calls <==>
              PushAt(calls, k, m, name).value.time > c.base
              && TableAllows(After(NOTHING, calls), m, outcome.loop.clock.mark)
  {
    forall q | q in Enforcement.Reached(actions).value.heard
      ensures q.time < PushAt(calls, k, m, name).value.time || q == PushAt(calls, k, m, name).value
    {
      NothingNewer(calls, k, m, name, PushAt(calls, k, m, name).value, q);
    }
    LeftAlone(calls, k + 1, m, name);
    TableIsEnforced(calls, k, m, name, actions, os, mono);
  }

  lemma {:induction false} LeftIsQuiet(calls: seq<Call>, k: nat, j: nat, m: MachineId, name: nat -> string)
    requires LeftFrom(calls, k, m, name) && k <= j < |calls|
    ensures PushAt(calls, j, m, name).None?
  {
    assert Leaves(After(NOTHING, calls[..j]), calls[j], m, name);
    assert calls[..j + 1][..j] == calls[..j];
    PushesBefore(calls, j + 1, m, name);
  }

  lemma {:induction false} NewestUpTo(calls: seq<Call>, k: nat, j: nat, m: MachineId, name: nat -> string,
                                      p: Enforcement.Message, q: Enforcement.Message)
    requires Orderly(calls) && OneByOne(calls, m, name) && j <= k < |calls|
    requires PushAt(calls, k, m, name) == Some(p) && PushAt(calls, j, m, name) == Some(q)
    ensures q.time < p.time || q == p
  {
    if j < k {
      PushesBefore(calls, k + 1, m, name);
      PushesBefore(calls, k + 1, m, name);
      OneByOneBefore(calls, k + 1, m, name);
      EarlierIsOlder(calls[..k + 1], j, m, name, p, q);
    }
  }

  lemma {:induction false} NothingNewer(calls: seq<Call>, k: nat, m: MachineId, name: nat -> string,
                                        p: Enforcement.Message, q: Enforcement.Message)
    requires Orderly(calls) && OneByOne(calls, m, name) && k < |calls| && PushAt(calls, k, m, name) == Some(p)
    requires LeftFrom(calls, k + 1, m, name) && Pushed(calls, m, name, q)
    ensures q.time < p.time || q == p
  {
    forall i | k < i < |calls| ensures PushAt(calls, i, m, name).None? {
      LeftIsQuiet(calls, k + 1, i, m, name);
    }
    var j :| 0 <= j < |calls| && PushAt(calls, j, m, name) == Some(q);
    NewestUpTo(calls, k, j, m, name, p, q);
  }

  // Two pushes in one millisecond.

  /** A session of machine 0 is started and ended in the same millisecond. */
  const HASTY := [Call(AddMachine(0), 0), Call(Start(0, 1), 1), Call(End(0), 1)]

  function HastyRow(): Row {
    Started(0, 0, 1, 1)
  }

  lemma HastyTables()
    ensures After(NOTHING, HASTY[..1]) == Table([], {0}, 0)
    ensures After(NOTHING, HASTY[..2]) == Table([HastyRow()], {0}, 1)
    ensures After(NOTHING, HASTY) == Table([Finished(HastyRow(), 1)], {0}, 1)
  {
    assert HASTY[..0] == [] && HASTY[..1][..0] == [] && HASTY[..2][..1] == HASTY[..1];
    assert Swept([], Some(0), 1) == [];
    assert Find([HastyRow()], 0) == 0;
    assert [HastyRow()][0 := Finished(HastyRow(), 1)] == [Finished(HastyRow(), 1)];
  }

  lemma {:induction false} HastyPushes(name: nat -> string)
    ensures Orderly(HASTY) && |HASTY| == 3
    ensures PushAt(HASTY, 1, 0, name) == Some(MessageOf(Some(HastyRow()), 1, name))
    ensures PushAt(HASTY, 2, 0, name) == Some(MessageOf(Some(Finished(HastyRow(), 1)), 1, name))
    ensures forall now :: !TableAllows(After(NOTHING, HASTY), 0, now)
  {
    HastyTables();
    assert HASTY[..2][..1] == HASTY[..1];
    PushesBefore(HASTY, 2, 0, name);
    assert Swept([], Some(0), 1) == [];
    assert PushOf(Table([], {0}, 0), HASTY[1], 0, name) == Some(MessageOf(Some(HastyRow()), 1, name));
    assert Find([HastyRow()], 0) == 0;
    assert PushOf(Table([HastyRow()], {0}, 1), HASTY[2], 0, name) ==
           Some(MessageOf(Some(Finished(HastyRow(), 1)), 1, name));
  }

  /**
    The condition is needed: the second of two pushes with one timestamp is refused, so the
    computer goes on allowing a session that the table has ended, although it heard both.
   */
  lemma SameInstantCanDisagree(name: nat -> string, os: Millis)
    returns (actions: seq<Enforcement.Action>)
    requires os < 60_001
    ensures Enforcement.Reached(actions).Some? && Enforcing(Enforcement.Reached(actions).value)
    ensures PushAt(HASTY, 1, 0, name).Some? && PushAt(HASTY, 2, 0, name).Some?
    ensures var c := Enforcement.Reached(actions).value;
            && c.heard == [PushAt(HASTY, 1, 0, name).value, PushAt(HASTY, 2, 0, name).value]
            && c.base < PushAt(HASTY, 2, 0, name).value.time
            && RunLoop.DisableUsage !in RunLoop.Ticked(c.process.value, os, 0).calls
            && !TableAllows(After(NOTHING, HASTY), 0, RunLoop.Ticked(c.process.value, os, 0).loop.clock.mark)
  {
    HastyPushes(name);
    var first, second := PushAt(HASTY, 1, 0, name).value, PushAt(HASTY, 2, 0, name).value;
    var enroll, boot := Enforcement.Enroll(Credentials(0, 0), 0), Enforcement.Boot(0);
    var hear := Enforcement.Handle(RunLoop.SessionState(first.session, first.time), 0);
    var hearAgain := Enforcement.Handle(RunLoop.SessionState(second.session, second.time), 0);
    actions := [enroll, boot, hear, hearAgain];
    assert actions[..3] == [enroll, boot, hear] && actions[..3][..2] == [enroll, boot];
    assert [enroll, boot][..1] == [enroll] && [enroll][..0] == [];
    var enrolled := Enforcement.Apply(Enforcement.BLANK, enroll);
    assert Enforcement.Reached([enroll]) == Some(enrolled);
    var booted := Enforcement.Apply(enrolled, boot);
    assert Enforcement.Reached([enroll, boot]) == Some(booted);
    var heard := Enforcement.Apply(booted, hear);
    assert Enforcement.Reached([enroll, boot, hear]) == Some(heard);
    assert Enforcement.Reached(actions) == Some(Enforcement.Apply(heard, hearAgain));
  }
}
