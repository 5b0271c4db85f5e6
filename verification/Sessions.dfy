/**
  The session rows on the server (api/src/modules/sessions/sessions.service.ts and
  sessions.sweeper.ts). Each service call is one atomic step at one instant of the server's
  clock; the table lists rows in the order of their creation.
 */
module Sessions {
  import opened Basics
  import opened Session
  import opened Usage

  datatype Row = Row(id: nat, usage: UsageSession, updatedAt: Millis)

  datatype SessionError = MachineNotFound | SessionNotFound | AlreadyActive | NotActive

  datatype Table = Table(rows: seq<Row>, machines: set<MachineId>, nextId: nat)

  const MINUTE := 60_000
  const MAX_MINUTES := 10_080

  predicate IsActive(r: Row) {
    r.usage.status.Active?
  }

  /** Active, but past its deadline: what an inline expiry or the sweeper would close. */
  predicate Stale(r: Row, now: Millis) {
    IsActive(r) && r.usage.expiresAt < now
  }

  function Closed(r: Row, now: Millis): Row {
    r.(usage := r.usage.(status := Expired), updatedAt := now)
  }

  /** `updateMany`: expire every stale row, of one machine or of all. */
  function Swept(rows: seq<Row>, machine: Option<MachineId>, now: Millis): (swept: seq<Row>)
    ensures |swept| == |rows|
  {
    seq(|rows|, i requires 0 <= i < |rows| =>
      if Stale(rows[i], now) && (machine.Some? ==> rows[i].usage.machineId == machine.value)
      then Closed(rows[i], now) else rows[i])
  }

  predicate ActiveOn(rows: seq<Row>, m: MachineId) {
    exists i :: 0 <= i < |rows| && IsActive(rows[i]) && rows[i].usage.machineId == m
  }

  /** The row with this id, or -1. */
  function Find(rows: seq<Row>, id: nat): (i: int)
    ensures -1 <= i < |rows|
    ensures i >= 0 ==> rows[i].id == id
    ensures i < 0 ==> forall j :: 0 <= j < |rows| ==> rows[j].id != id
  {
    if rows == [] then -1
    else if rows[|rows| - 1].id == id then |rows| - 1
    else Find(rows[..|rows| - 1], id)
  }

  /** The row may be extended or ended: active, and its deadline still ahead. */
  predicate Current(r: Row, now: Millis) {
    IsActive(r) && r.usage.expiresAt > now
  }

  datatype Op =
    | Start(machine: MachineId, minutes: nat)
    | Extend(id: nat, minutes: nat)
    | End(id: nat)
    | Get(machine: MachineId)
    | Sweep
    | AddMachine(machine: MachineId)
    | DeleteMachine(machine: MachineId)

  function Without(rows: seq<Row>, m: MachineId): seq<Row> {
    if rows == [] then []
    else
      var last := rows[|rows| - 1];
      Without(rows[..|rows| - 1], m) + if last.usage.machineId == m then [] else [last]
  }

  function Started(m: MachineId, id: nat, minutes: nat, now: Millis): Row {
    Row(id, UsageSession(m, now, now + minutes * MINUTE, None, SessionStatus.Active), now)
  }

  function Extended(r: Row, minutes: nat, now: Millis): Row {
    r.(usage := r.usage.(expiresAt := r.usage.expiresAt + minutes * MINUTE), updatedAt := now)
  }

  function Finished(r: Row, now: Millis): Row {
    r.(usage := r.usage.(status := SessionStatus.Ended, endedAt := Some(now)), updatedAt := now)
  }

  /** The table after one call; a rejected call may still have expired stale rows. */
  function Apply(t: Table, op: Op, now: Millis): Table {
    match op
    case Start(m, minutes) =>
      if m !in t.machines then t
      else
        var swept := Swept(t.rows, Some(m), now);
        if ActiveOn(swept, m) then t.(rows := swept)
        else t.(rows := swept + [Started(m, t.nextId, minutes, now)], nextId := t.nextId + 1)
    case Extend(id, minutes) =>
      var i := Find(t.rows, id);
      if i >= 0 && Current(t.rows[i], now) then t.(rows := t.rows[i := Extended(t.rows[i], minutes, now)]) else t
    case End(id) =>
      var i := Find(t.rows, id);
      if i >= 0 && Current(t.rows[i], now) then t.(rows := t.rows[i := Finished(t.rows[i], now)]) else t
    case Get(m) => t.(rows := Swept(t.rows, Some(m), now))
    case Sweep => t.(rows := Swept(t.rows, None, now))
    case AddMachine(m) => t.(machines := t.machines + {m})
    case DeleteMachine(m) => t.(rows := Without(t.rows, m), machines := t.machines - {m})
  }

  /** A row whose deadline has passed is marked expired, if the call concerns it, and else untouched. */
  predicate RunOut(before: Row, after: Row, concerned: bool, now: Millis) {
    if concerned && before.usage.status.Active? && before.usage.expiresAt < now
    then after == Row(before.id, before.usage.(status := SessionStatus.Expired), now)
    else after == before
  }

  class SessionsService {
    var rows: seq<Row>
    var machines: set<MachineId>
    var nextId: nat
    var pushed: seq<Row>     // rows pushed to agents and operators

    ghost function View(): Table
      reads this
    {
      Table(rows, machines, nextId)
    }

    constructor ()
      ensures View() == Table([], {}, 0) && pushed == []
    {
      rows, machines, nextId, pushed := [], {}, 0, [];
    }

    method ExpireStaleActiveSession(machineId: MachineId, now: Millis)
      modifies this`rows
      ensures rows == Swept(old(rows), Some(machineId), now)
      ensures forall i :: 0 <= i < |rows| ==>
                RunOut(old(rows)[i], rows[i], old(rows)[i].usage.machineId == machineId, now)
    {
      rows := Swept(rows, Some(machineId), now);
    }

    method GetActiveSession(machineId: MachineId, now: Millis) returns (session: Option<Row>)
      modifies this`rows
      ensures View() == Apply(old(View()), Get(machineId), now)
      ensures |rows| == |old(rows)|
      ensures forall i :: 0 <= i < |rows| ==>
                RunOut(old(rows)[i], rows[i], old(rows)[i].usage.machineId == machineId, now)
      ensures session.Some? <==>
                exists i :: 0 <= i < |rows| && rows[i].usage.status.Active? && rows[i].usage.machineId == machineId
      ensures session.Some? ==>
                session.value in rows && session.value.usage.status.Active?
                && session.value.usage.machineId == machineId && session.value.usage.expiresAt >= now
    {
      ExpireStaleActiveSession(machineId, now);
      session := None;
      var i := 0;
      while i < |rows| && session.None?
        invariant 0 <= i <= |rows|
        invariant session.None? ==> forall j :: 0 <= j < i ==>
                    !(IsActive(rows[j]) && rows[j].usage.machineId == machineId)
        invariant session.Some? ==>
                    session.value in rows && IsActive(session.value) && session.value.usage.machineId == machineId
      {
        if IsActive(rows[i]) && rows[i].usage.machineId == machineId {
          session := Some(rows[i]);
        }
        i := i + 1;
      }
      if session.Some? {
        var k :| 0 <= k < |rows| && rows[k] == session.value;
        assert ActiveOn(rows, machineId);
      }
    }

    /** A second active row is what the partial unique index refuses. */
    method Start(machineId: MachineId, minutes: nat, now: Millis) returns (r: Result<Row, SessionError>)
      requires 1 <= minutes <= MAX_MINUTES
      modifies this
      ensures View() == Apply(old(View()), Op.Start(machineId, minutes), now)
      ensures machineId !in old(machines) ==> r == Err(MachineNotFound)
      ensures machineId in old(machines) ==>
                (r == Err(AlreadyActive) <==>
                 exists i :: 0 <= i < |old(rows)| && IsActive(old(rows)[i]) && old(rows)[i].usage.machineId == machineId
                             && old(rows)[i].usage.expiresAt >= now)
      ensures r.Ok? ==>
                && |rows| == |old(rows)| + 1 && rows[|rows| - 1] == r.value && pushed == old(pushed) + [r.value]
                && r.value.id == old(nextId) && r.value.updatedAt == now
                && r.value.usage == UsageSession(machineId, now, now + 60_000 * minutes, None, SessionStatus.Active)
                && nextId == old(nextId) + 1 && machines == old(machines)
      ensures machineId in machines ==> forall i :: 0 <= i < |old(rows)| ==>
                RunOut(old(rows)[i], rows[i], old(rows)[i].usage.machineId == machineId, now)
      ensures r.Err? ==> pushed == old(pushed) && (r.error == MachineNotFound || r.error == AlreadyActive)
    {
      if machineId !in machines {
        return Err(MachineNotFound);
      }
      ghost var before := rows;
      ExpireStaleActiveSession(machineId, now);
      assert forall i :: 0 <= i < |rows| ==>
        (IsActive(rows[i]) && rows[i].usage.machineId == machineId <==>
         IsActive(before[i]) && before[i].usage.machineId == machineId && before[i].usage.expiresAt >= now);
      if ActiveOn(rows, machineId) {
        return Err(AlreadyActive);
      }
      var session := Started(machineId, nextId, minutes, now);
      rows := rows + [session];
      nextId := nextId + 1;
      pushed := pushed + [session];
      return Ok(session);
    }

    method RequireActiveSession(sessionId: nat, now: Millis) returns (r: Result<int, SessionError>)
      ensures r == Err(SessionNotFound) <==> forall i :: 0 <= i < |rows| ==> rows[i].id != sessionId
      ensures r.Err? ==> r.error == SessionNotFound || r.error == NotActive
      ensures 0 <= Find(rows, sessionId) ==>
                var found := rows[Find(rows, sessionId)].usage;
                r.Ok? <==> found.status.Active? && found.expiresAt > now
      ensures r.Ok? ==> r.value == Find(rows, sessionId)
    {
      var i := Find(rows, sessionId);
      if i < 0 {
        return Err(SessionNotFound);
      }
      if !rows[i].usage.status.Active? || rows[i].usage.expiresAt <= now {
        return Err(NotActive);
      }
      return Ok(i);
    }

    method Extend(sessionId: nat, minutes: nat, now: Millis) returns (r: Result<Row, SessionError>)
      requires 1 <= minutes <= MAX_MINUTES
      modifies this
      ensures View() == Apply(old(View()), Op.Extend(sessionId, minutes), now)
      ensures var i := Find(old(rows), sessionId);
              r.Ok? <==> i >= 0 && old(rows)[i].usage.status.Active? && old(rows)[i].usage.expiresAt > now
      ensures r.Ok? ==>
                var i := Find(old(rows), sessionId);
                var before := old(rows)[i];
                && r.value == Row(sessionId, before.usage.(expiresAt := before.usage.expiresAt + 60_000 * minutes), now)
                && rows == old(rows)[i := r.value] && pushed == old(pushed) + [r.value]
      ensures r.Err? ==> pushed == old(pushed) && rows == old(rows)
    {
      var found := RequireActiveSession(sessionId, now);
      if found.Err? {
        return Err(found.error);
      }
      var updated := Extended(rows[found.value], minutes, now);
      rows := rows[found.value := updated];
      pushed := pushed + [updated];
      return Ok(updated);
    }

    method End(sessionId: nat, now: Millis) returns (r: Result<Row, SessionError>)
      modifies this
      ensures View() == Apply(old(View()), Op.End(sessionId), now)
      ensures var i := Find(old(rows), sessionId);
              r.Ok? <==> i >= 0 && old(rows)[i].usage.status.Active? && old(rows)[i].usage.expiresAt > now
      ensures r.Ok? ==>
                var i := Find(old(rows), sessionId);
                var before := old(rows)[i];
                && r.value == Row(sessionId, before.usage.(status := SessionStatus.Ended, endedAt := Some(now)), now)
                && rows == old(rows)[i := r.value] && pushed == old(pushed) + [r.value]
      ensures r.Err? ==> pushed == old(pushed) && rows == old(rows)
    {
      var found := RequireActiveSession(sessionId, now);
      if found.Err? {
        return Err(found.error);
      }
      var updated := Finished(rows[found.value], now);
      rows := rows[found.value := updated];
      pushed := pushed + [updated];
      return Ok(updated);
    }

    /** The sweeper's cron job. */
    method Sweep(now: Millis)
      modifies this`rows
      ensures View() == Apply(old(View()), Op.Sweep, now)
      ensures |rows| == |old(rows)|
      ensures forall i :: 0 <= i < |rows| ==>
                RunOut(old(rows)[i], rows[i], true, now)
    {
      rows := Swept(rows, None, now);
    }
  }
}

/** What session tables look like after any calls, and what reports make of them. */
module SessionRuns {
  import opened Basics
  import opened Session
  import opened Usage
  import opened Sessions

  datatype Call = Call(op: Op, now: Millis)

  predicate Chronological(calls: seq<Call>, since: Millis) {
    (calls != [] ==> since <= calls[0].now) &&
    forall i, j :: 0 <= i < j < |calls| ==> calls[i].now <= calls[j].now
  }

  function After(t: Table, calls: seq<Call>): Table {
    if calls == [] then t
    else Apply(After(t, calls[..|calls| - 1]), calls[|calls| - 1].op, calls[|calls| - 1].now)
  }

  // Disjoint sessions.

  /** The instant a closed session stopped. */
  function StoppedAt(s: UsageSession): Millis {
    Min(if s.endedAt.Some? then s.endedAt.value else s.expiresAt, s.expiresAt)
  }

  /** A row as any call leaves it at `now`. */
  predicate Sound(r: Row, now: Millis) {
    var s := r.usage;
    && s.startedAt <= now && s.startedAt <= StoppedAt(s)
    && (!s.status.Ended? ==> s.endedAt.None?)
    && (s.status.Ended? ==> s.endedAt.Some?)
    && (!s.status.Active? ==> StoppedAt(s) <= now)
  }

  /** An older row of the same machine stopped before a newer one started. */
  predicate Follows(older: UsageSession, newer: UsageSession) {
    older.machineId == newer.machineId ==> !older.status.Active? && StoppedAt(older) <= newer.startedAt
  }

  ghost predicate Consistent(t: Table, now: Millis) {
    && (forall i :: 0 <= i < |t.rows| ==> Sound(t.rows[i], now) && t.rows[i].id < t.nextId)
    && (forall i, j :: 0 <= i < j < |t.rows| ==> t.rows[i].id != t.rows[j].id)
    && (forall i, j :: 0 <= i < j < |t.rows| ==> Follows(t.rows[i].usage, t.rows[j].usage))
  }

  lemma {:induction false} WithoutKeepsConsistent(t: Table, rows: seq<Row>, m: MachineId, now: Millis)
    requires Consistent(t.(rows := rows), now)
    ensures Consistent(t.(rows := Without(rows, m)), now)
    ensures forall r :: r in Without(rows, m) ==> r in rows
  {
    if rows != [] {
      var n := |rows| - 1;
      WithoutKeepsConsistent(t, rows[..n], m, now);
      var rest := Without(rows[..n], m);
      forall i | 0 <= i < |rest| ensures Follows(rest[i].usage, rows[n].usage) && rest[i].id != rows[n].id {
        assert rest[i] in rows[..n];
      }
    }
  }

  lemma SweptKeepsConsistent(t: Table, machine: Option<MachineId>, now: Millis)
    requires Consistent(t, now)
    ensures Consistent(t.(rows := Swept(t.rows, machine, now)), now)
  {
  }

  lemma StartKeepsConsistent(t: Table, m: MachineId, minutes: nat, now: Millis)
    requires Consistent(t, now)
    ensures Consistent(Apply(t, Start(m, minutes), now), now)
  {
    SweptKeepsConsistent(t, Some(m), now);
    var swept := Swept(t.rows, Some(m), now);
    if m in t.machines && !ActiveOn(swept, m) {
      forall i | 0 <= i < |swept|
        ensures Follows(swept[i].usage, Started(m, t.nextId, minutes, now).usage)
      {
        assert Sound(swept[i], now);
      }
    }
  }

  /** A current row is the last of its machine, so moving or setting its end disturbs no other. */
  lemma CurrentIsLast(t: Table, i: nat, row: Row, now: Millis)
    requires Consistent(t, now) && i < |t.rows| && Current(t.rows[i], now)
    requires row.id == t.rows[i].id && row.usage.machineId == t.rows[i].usage.machineId
    requires row.usage.startedAt == t.rows[i].usage.startedAt && Sound(row, now)
    ensures Consistent(t.(rows := t.rows[i := row]), now)
  {
    var rows := t.rows[i := row];
    forall a, b | 0 <= a < b < |rows| ensures Follows(rows[a].usage, rows[b].usage) {
      assert Follows(t.rows[a].usage, t.rows[b].usage);
    }
  }

  lemma StepKeepsConsistent(t: Table, call: Call, since: Millis)
    requires Consistent(t, since) && since <= call.now
    ensures Consistent(Apply(t, call.op, call.now), call.now)
  {
    assert Consistent(t, call.now);
    match call.op
    case Start(m, minutes) => StartKeepsConsistent(t, m, minutes, call.now);
    case Extend(id, minutes) =>
      var i := Find(t.rows, id);
      if i >= 0 && Current(t.rows[i], call.now) {
        CurrentIsLast(t, i, Extended(t.rows[i], minutes, call.now), call.now);
      }
    case End(id) =>
      var i := Find(t.rows, id);
      if i >= 0 && Current(t.rows[i], call.now) {
        CurrentIsLast(t, i, Finished(t.rows[i], call.now), call.now);
      }
    case Get(m) => SweptKeepsConsistent(t, Some(m), call.now);
    case Sweep => SweptKeepsConsistent(t, None, call.now);
    case DeleteMachine(m) => WithoutKeepsConsistent(t, t.rows, m, call.now);
    case _ =>
  }

  lemma {:induction false} AlwaysConsistent(calls: seq<Call>)
    requires calls != [] ==> Chronological(calls, calls[0].now)
    ensures Consistent(After(Table([], {}, 0), calls), if calls == [] then 0 else calls[|calls| - 1].now)
  {
    if |calls| == 1 {
      StepKeepsConsistent(Table([], {}, 0), calls[0], calls[0].now);
    } else if calls != [] {
      var n := |calls| - 1;
      AlwaysConsistent(calls[..n]);
      StepKeepsConsistent(After(Table([], {}, 0), calls[..n]), calls[n], calls[n - 1].now);
    }
  }

  predicate Disjoint(a: UsageSession, b: UsageSession, now: Millis) {
    UsableUntil(a, now) <= b.startedAt || UsableUntil(b, now) <= a.startedAt
  }

  /**
    After any calls, a machine has at most one active session, and the stretches of time in which
    its sessions made it usable never overlap.
   */
  lemma {:induction false} SessionsAreDisjoint(calls: seq<Call>, i: nat, j: nat, now: Millis)
    requires calls != [] && Chronological(calls, calls[0].now) && calls[|calls| - 1].now <= now
    requires var rows := After(Table([], {}, 0), calls).rows;
             i < j < |rows| && rows[i].usage.machineId == rows[j].usage.machineId
    ensures var rows := After(Table([], {}, 0), calls).rows;
            && !(IsActive(rows[i]) && IsActive(rows[j]))
            && Disjoint(rows[i].usage, rows[j].usage, now)
  {
    AlwaysConsistent(calls);
    var rows := After(Table([], {}, 0), calls).rows;
    assert Follows(rows[i].usage, rows[j].usage);
  }

  /** The sessions of a table, as a report reads them. */
  function UsagesOf(rows: seq<Row>): seq<UsageSession> {
    seq(|rows|, i requires 0 <= i < |rows| => rows[i].usage)
  }

  /** Sessions in order fill no more of a window than lies before the end of the last one. */
  lemma {:induction false} OrderedFitBefore(rows: seq<Row>, m: MachineId, w: Window, end: Millis)
    requires forall i :: 0 <= i < |rows| ==> Sound(rows[i], w.now)
    requires forall i, j :: 0 <= i < j < |rows| ==> Follows(rows[i].usage, rows[j].usage)
    requires forall i :: 0 <= i < |rows| && rows[i].usage.machineId == m ==> UsableUntil(rows[i].usage, w.now) <= end
    ensures TotalMs(UsagesOf(rows), m, w) <= Max(Min(end, w.to) - w.from, 0)
  {
    if rows != [] {
      var n := |rows| - 1;
      assert UsagesOf(rows)[..n] == UsagesOf(rows[..n]);
      if rows[n].usage.machineId == m {
        forall i | 0 <= i < n && rows[i].usage.machineId == m
          ensures UsableUntil(rows[i].usage, w.now) <= rows[n].usage.startedAt
        {
          assert Follows(rows[i].usage, rows[n].usage);
        }
        OrderedFitBefore(rows[..n], m, w, rows[n].usage.startedAt);
      } else {
        OrderedFitBefore(rows[..n], m, w, end);
      }
    }
  }

  /**
    No machine is ever reported as used for longer than the window has lasted so far, and the
    rounded time of its row is at most that, rounded.
   */
  lemma {:induction false} UsageFitsTheWindow(calls: seq<Call>, m: MachineId, w: Window)
    requires calls != [] && Chronological(calls, calls[0].now) && calls[|calls| - 1].now <= w.now
    ensures var used, lasted := TotalMs(UsagesOf(After(Table([], {}, 0), calls).rows), m, w),
                                Max(Min(w.to, w.now) - w.from, 0);
            used <= lasted && RoundToSeconds(used) <= RoundToSeconds(lasted)
  {
    AlwaysConsistent(calls);
    OrderedFitBefore(After(Table([], {}, 0), calls).rows, m, w, w.now);
  }

  /** Some session of the machine makes it usable at instant `t`. */
  predicate UsedAt(rows: seq<Row>, m: MachineId, t: Millis, now: Millis) {
    exists i :: 0 <= i < |rows| && rows[i].usage.machineId == m && UsableAt(rows[i].usage, t, now)
  }

  function UsedInstants(rows: seq<Row>, m: MachineId, w: Window): (instants: set<Millis>)
    ensures forall t :: t in instants <==> w.from <= t < w.to && UsedAt(rows, m, t, w.now)
  {
    set t: Millis | w.from <= t < w.to && UsedAt(rows, m, t, w.now)
  }

  lemma UsedByLast(rows: seq<Row>, m: MachineId, t: Millis, now: Millis)
    requires rows != []
    ensures var n := |rows| - 1;
            UsedAt(rows, m, t, now) <==>
              UsedAt(rows[..n], m, t, now) || (rows[n].usage.machineId == m && UsableAt(rows[n].usage, t, now))
  {
    var n := |rows| - 1;
    if i :| 0 <= i < n && rows[i].usage.machineId == m && UsableAt(rows[i].usage, t, now) {
      assert rows[..n][i] == rows[i];
    }
  }

  /** Where sessions follow each other, no instant is used twice. */
  lemma UsedOnce(rows: seq<Row>, m: MachineId, t: Millis, now: Millis)
    requires rows != [] && forall i, j :: 0 <= i < j < |rows| ==> Follows(rows[i].usage, rows[j].usage)
    requires var last := rows[|rows| - 1].usage; last.machineId == m && UsableAt(last, t, now)
    ensures !UsedAt(rows[..|rows| - 1], m, t, now)
  {
    var n := |rows| - 1;
    forall i | 0 <= i < n && rows[i].usage.machineId == m ensures !UsableAt(rows[i].usage, t, now) {
      assert Follows(rows[i].usage, rows[n].usage);
    }
  }

  lemma LastAddsInstants(rows: seq<Row>, m: MachineId, w: Window)
    requires rows != [] && forall i, j :: 0 <= i < j < |rows| ==> Follows(rows[i].usage, rows[j].usage)
    ensures var n := |rows| - 1;
            |UsedInstants(rows, m, w)| == |UsedInstants(rows[..n], m, w)|
              + if rows[n].usage.machineId == m then |UsableInstants(rows[n].usage, w)| else 0
  {
    var n := |rows| - 1;
    var last := rows[n].usage;
    var earlier, more := UsedInstants(rows[..n], m, w), if last.machineId == m then UsableInstants(last, w) else {};
    forall t ensures t in UsedInstants(rows, m, w) <==> t in earlier + more {
      UsedByLast(rows, m, t, w.now);
    }
    assert UsedInstants(rows, m, w) == earlier + more;
    forall t | t in more ensures t !in earlier {
      UsedOnce(rows, m, t, w.now);
    }
    assert earlier * more == {};
  }

  lemma {:induction false} OrderedCountInstants(rows: seq<Row>, m: MachineId, w: Window)
    requires forall i, j :: 0 <= i < j < |rows| ==> Follows(rows[i].usage, rows[j].usage)
    ensures TotalMs(UsagesOf(rows), m, w) == |UsedInstants(rows, m, w)|
  {
    if rows == [] {
      assert UsedInstants(rows, m, w) == {};
    } else {
      var n := |rows| - 1;
      OrderedCountInstants(rows[..n], m, w);
      LastAddsInstants(rows, m, w);
      ClippedCountsInstants(rows[n].usage, w);
      assert UsagesOf(rows)[..n] == UsagesOf(rows[..n]);
    }
  }

  /**
    A machine's reported time is the number of instants of the window at which some session of it
    made it usable: each instant is counted, and none is counted twice.
   */
  lemma {:induction false} UsageCountsInstants(calls: seq<Call>, m: MachineId, w: Window)
    requires calls != [] ==> Chronological(calls, calls[0].now)
    ensures var rows := After(Table([], {}, 0), calls).rows;
            TotalMs(UsagesOf(rows), m, w) == |UsedInstants(rows, m, w)|
  {
    AlwaysConsistent(calls);
    OrderedCountInstants(After(Table([], {}, 0), calls).rows, m, w);
  }

  // Deadlines.

  /** The minutes that one call grants to session `id`. */
  ghost function MinutesOf(t: Table, call: Call, id: nat): nat {
    match call.op
    case Start(m, minutes) =>
      if id == t.nextId && m in t.machines
         && forall r :: r in t.rows && r.usage.status.Active? && r.usage.machineId == m ==> r.usage.expiresAt < call.now
      then minutes else 0
    case Extend(extended, minutes) =>
      if id == extended
         && exists r :: r in t.rows && r.id == id && r.usage.status.Active? && r.usage.expiresAt > call.now
      then minutes else 0
    case _ => 0
  }

  /** All minutes granted to session `id`: by its start, and by every extension that succeeded. */
  ghost function GrantedMinutes(calls: seq<Call>, id: nat): nat {
    if calls == [] then 0
    else
      var n := |calls| - 1;
      GrantedMinutes(calls[..n], id) + MinutesOf(After(Table([], {}, 0), calls[..n]), calls[n], id)
  }

  /** A row as its start and its extensions left it. */
  ghost predicate Measured(t: Table, granted: nat -> nat) {
    && (forall r :: r in t.rows ==> r.usage.expiresAt == r.usage.startedAt + 60_000 * granted(r.id))
    && (forall id :: id >= t.nextId ==> granted(id) == 0)
  }

  /** What a call does to start and deadline of a row: only an extension of that row moves anything. */
  lemma RowKeepsDeadline(t: Table, call: Call, r: Row)
    requires r in Apply(t, call.op, call.now).rows
    requires !(call.op.Start? && r.id == t.nextId) && !(call.op.Extend? && r.id == call.op.id)
    ensures exists b :: b in t.rows && b.id == r.id && b.usage.startedAt == r.usage.startedAt
                        && b.usage.expiresAt == r.usage.expiresAt
  {
    match call.op
    case Start(m, minutes) => StartRows(t, call, r);
    case Get(m) => SweptFrom(t.rows, Some(m), call.now, r);
    case Sweep => SweptFrom(t.rows, None, call.now, r);
    case DeleteMachine(m) => DeletionCascades(t.rows, m, r);
    case End(id) => UpdatedFrom(t.rows, Find(t.rows, id), Apply(t, call.op, call.now).rows, r);
    case Extend(id, _) => UpdatedFrom(t.rows, Find(t.rows, id), Apply(t, call.op, call.now).rows, r);
    case AddMachine(_) =>
  }

  lemma SweptFrom(rows: seq<Row>, machine: Option<MachineId>, now: Millis, r: Row)
    requires r in Swept(rows, machine, now)
    ensures exists b :: b in rows && b.id == r.id && b.usage.startedAt == r.usage.startedAt
                        && b.usage.expiresAt == r.usage.expiresAt
  {
    var i :| 0 <= i < |rows| && Swept(rows, machine, now)[i] == r;
    assert rows[i] in rows;
  }

  lemma StartRows(t: Table, call: Call, r: Row)
    requires call.op.Start? && r in Apply(t, call.op, call.now).rows && r.id != t.nextId
    ensures exists b :: b in t.rows && b.id == r.id && b.usage.startedAt == r.usage.startedAt
                        && b.usage.expiresAt == r.usage.expiresAt
  {
    if call.op.machine in t.machines {
      assert r in Swept(t.rows, Some(call.op.machine), call.now);
      SweptFrom(t.rows, Some(call.op.machine), call.now, r);
    }
  }

  lemma UpdatedFrom(rows: seq<Row>, i: int, rows': seq<Row>, r: Row)
    requires r in rows' && (rows' == rows || (0 <= i < |rows| && |rows'| == |rows| && rows' == rows[i := rows'[i]]))
    requires rows' != rows && r == rows'[i] ==>
               rows[i].id == r.id && rows[i].usage.startedAt == r.usage.startedAt
                 && rows[i].usage.expiresAt == r.usage.expiresAt
    ensures exists b :: b in rows && b.id == r.id && b.usage.startedAt == r.usage.startedAt
                        && b.usage.expiresAt == r.usage.expiresAt
  {
    var j :| 0 <= j < |rows'| && rows'[j] == r;
    assert rows[j] in rows;
  }

  lemma ExtendMeasures(t: Table, call: Call, now: Millis, granted: nat -> nat, r: Row)
    requires Measured(t, granted) && Consistent(t, now) && call.op.Extend? && r.id == call.op.id
    requires r in Apply(t, call.op, call.now).rows
    ensures r.usage.expiresAt == r.usage.startedAt + 60_000 * (granted(r.id) + MinutesOf(t, call, r.id))
  {
    var rows := Apply(t, call.op, call.now).rows;
    var i := Find(t.rows, call.op.id);
    var j :| 0 <= j < |rows| && rows[j] == r;
    assert t.rows[j].id == r.id && t.rows[j] in t.rows;
    assert i == j;
    if b :| b in t.rows && b.id == r.id && b.usage.status.Active? && b.usage.expiresAt > call.now {
      var k :| 0 <= k < |t.rows| && t.rows[k] == b;
    }
  }

  lemma StartMeasures(t: Table, call: Call, now: Millis, granted: nat -> nat, r: Row)
    requires Measured(t, granted) && Consistent(t, now) && call.op.Start? && r.id == t.nextId
    requires r in Apply(t, call.op, call.now).rows
    ensures r.usage.expiresAt == r.usage.startedAt + 60_000 * (granted(r.id) + MinutesOf(t, call, r.id))
  {
    var m := call.op.machine;
    forall b | b in t.rows ensures b.id != t.nextId {
      var k :| 0 <= k < |t.rows| && t.rows[k] == b;
    }
    if m in t.machines {
      var swept := Swept(t.rows, Some(m), call.now);
      forall b | b in t.rows && b.usage.status.Active? && b.usage.machineId == m && !ActiveOn(swept, m)
        ensures b.usage.expiresAt < call.now
      {
        var k :| 0 <= k < |t.rows| && t.rows[k] == b;
        assert !(IsActive(swept[k]) && swept[k].usage.machineId == m);
      }
      if r in swept {
        SweptFrom(t.rows, Some(m), call.now, r);
      }
    }
  }

  lemma StepMeasures(t: Table, call: Call, now: Millis, granted: nat -> nat, r: Row)
    requires Measured(t, granted) && Consistent(t, now) && r in Apply(t, call.op, call.now).rows
    ensures r.usage.expiresAt == r.usage.startedAt + 60_000 * (granted(r.id) + MinutesOf(t, call, r.id))
  {
    if call.op.Start? && r.id == t.nextId {
      StartMeasures(t, call, now, granted, r);
    } else if call.op.Extend? && r.id == call.op.id {
      ExtendMeasures(t, call, now, granted, r);
    } else {
      RowKeepsDeadline(t, call, r);
    }
  }

  /**
    A session lasts for exactly what it was granted: after any calls, each row's deadline is its
    start plus the minutes of its start and of its successful extensions, whenever they came.
   */
  lemma {:induction false} DeadlineIsWhatWasGranted(calls: seq<Call>)
    requires calls != [] ==> Chronological(calls, calls[0].now)
    ensures forall r :: r in After(Table([], {}, 0), calls).rows ==>
              r.usage.expiresAt == r.usage.startedAt + 60_000 * GrantedMinutes(calls, r.id)
    ensures forall id :: id >= After(Table([], {}, 0), calls).nextId ==> GrantedMinutes(calls, id) == 0
  {
    if calls != [] {
      var n := |calls| - 1;
      var t := After(Table([], {}, 0), calls[..n]);
      DeadlineIsWhatWasGranted(calls[..n]);
      AlwaysConsistent(calls[..n]);
      var now := if n == 0 then 0 else calls[n - 1].now;
      ghost var granted := (id: nat) => GrantedMinutes(calls[..n], id);
      forall r | r in After(Table([], {}, 0), calls).rows
        ensures r.usage.expiresAt == r.usage.startedAt + 60_000 * GrantedMinutes(calls, r.id)
      {
        StepMeasures(t, calls[n], now, granted, r);
      }
      forall id | id >= After(Table([], {}, 0), calls).nextId ensures GrantedMinutes(calls, id) == 0 {
        GrantsNothing(t, calls[n], now, id);
      }
    }
  }

  lemma GrantsNothing(t: Table, call: Call, now: Millis, id: nat)
    requires Consistent(t, now) && id >= Apply(t, call.op, call.now).nextId
    ensures MinutesOf(t, call, id) == 0 && t.nextId <= Apply(t, call.op, call.now).nextId
  {
    if call.op.Extend? {
      forall b | b in t.rows ensures b.id != id {
        var k :| 0 <= k < |t.rows| && t.rows[k] == b;
      }
    } else if call.op.Start? && call.op.machine in t.machines {
      var m := call.op.machine;
      var swept := Swept(t.rows, Some(m), call.now);
      if ActiveOn(swept, m) {
        var k :| 0 <= k < |swept| && IsActive(swept[k]) && swept[k].usage.machineId == m;
        assert t.rows[k] in t.rows;
      }
    }
  }

  /** Deleting a machine deletes its sessions, and no others. */
  lemma {:induction false} DeletionCascades(rows: seq<Row>, m: MachineId, r: Row)
    ensures r in Without(rows, m) <==> r in rows && r.usage.machineId != m
  {
    if rows != [] {
      DeletionCascades(rows[..|rows| - 1], m, r);
      assert rows == rows[..|rows| - 1] + [rows[|rows| - 1]];
    }
  }

  // Past reports.

  /** The time a report made at `now` gives machine `m` in `[from, to)`. */
  function UsedMs(t: Table, m: MachineId, from: Millis, to: Millis, now: Millis): nat {
    TotalMs(UsagesOf(t.rows), m, Window(from, to, now))
  }

  /** Row by row, two tables that agree on the past of `m` report the same. */
  lemma {:induction false} RowByRow(a: seq<Row>, b: seq<Row>, m: MachineId, v: Window, w: Window)
    requires |a| == |b|
    requires forall i :: 0 <= i < |a| ==>
               a[i].usage.machineId == b[i].usage.machineId
               && (a[i].usage.machineId == m ==> Clipped(a[i].usage, v) == Clipped(b[i].usage, w))
    ensures TotalMs(UsagesOf(a), m, v) == TotalMs(UsagesOf(b), m, w)
  {
    if a != [] {
      var n := |a| - 1;
      RowByRow(a[..n], b[..n], m, v, w);
      assert UsagesOf(a)[..n] == UsagesOf(a[..n]);
      assert UsagesOf(b)[..n] == UsagesOf(b[..n]);
    }
  }

  lemma {:induction false} WithoutOthers(rows: seq<Row>, gone: MachineId, m: MachineId, w: Window)
    requires gone != m
    ensures TotalMs(UsagesOf(Without(rows, gone)), m, w) == TotalMs(UsagesOf(rows), m, w)
  {
    if rows != [] {
      var n := |rows| - 1;
      WithoutOthers(rows[..n], gone, m, w);
      assert UsagesOf(rows)[..n] == UsagesOf(rows[..n]);
      var rest := Without(rows[..n], gone);
      if rows[n].usage.machineId != gone {
        assert UsagesOf(rest + [rows[n]])[..|rest|] == UsagesOf(rest);
      } else {
        assert rest + [] == rest;
      }
    }
  }

  /** What calls do to one row leaves its past alone. */
  lemma RowKeepsPast(r: Row, now: Millis, minutes: nat, v: Window, w: Window)
    requires w.from == v.from && w.to == v.to && w.to <= w.now <= now <= v.now && Sound(r, w.now)
    ensures Clipped(r.usage, v) == Clipped(r.usage, w)
    ensures Stale(r, now) ==> Clipped(Closed(r, now).usage, v) == Clipped(r.usage, w)
    ensures Current(r, now) ==> Clipped(Extended(r, minutes, now).usage, v) == Clipped(r.usage, w)
    ensures Current(r, now) ==> Clipped(Finished(r, now).usage, v) == Clipped(r.usage, w)
  {
  }

  lemma {:induction false} SweptKeepsPast(rows: seq<Row>, machine: Option<MachineId>, m: MachineId, now: Millis,
                                          v: Window, w: Window)
    requires w.from == v.from && w.to == v.to && w.to <= w.now <= now <= v.now
    requires forall i :: 0 <= i < |rows| ==> Sound(rows[i], w.now)
    ensures TotalMs(UsagesOf(Swept(rows, machine, now)), m, v) == TotalMs(UsagesOf(rows), m, w)
  {
    forall i | 0 <= i < |rows|
      ensures Clipped(Swept(rows, machine, now)[i].usage, v) == Clipped(rows[i].usage, w)
    {
      RowKeepsPast(rows[i], now, 0, v, w);
    }
    RowByRow(Swept(rows, machine, now), rows, m, v, w);
  }

  lemma {:induction false} UpdateKeepsPast(rows: seq<Row>, i: nat, row: Row, m: MachineId, v: Window, w: Window)
    requires i < |rows| && row.usage.machineId == rows[i].usage.machineId
    requires Clipped(row.usage, v) == Clipped(rows[i].usage, w)
    requires w.from == v.from && w.to == v.to && w.to <= w.now <= v.now
    requires forall i :: 0 <= i < |rows| ==> Sound(rows[i], w.now)
    ensures TotalMs(UsagesOf(rows[i := row]), m, v) == TotalMs(UsagesOf(rows), m, w)
  {
    forall k | 0 <= k < |rows|
      ensures Clipped(rows[i := row][k].usage, v) == Clipped(rows[k].usage, w)
    {
      RowKeepsPast(rows[k], v.now, 0, v, w);
    }
    RowByRow(rows[i := row], rows, m, v, w);
  }

  /** One call at or after the end of the window changes nothing inside it. */
  lemma StepKeepsPast(t: Table, call: Call, m: MachineId, from: Millis, to: Millis, at: Millis, later: Millis)
    requires to <= at <= call.now <= later && Consistent(t, at)
    requires call.op != DeleteMachine(m)
    ensures UsedMs(Apply(t, call.op, call.now), m, from, to, later) == UsedMs(t, m, from, to, at)
  {
    var v, w := Window(from, to, later), Window(from, to, at);
    var now := call.now;
    UnchangedKeepsPast(t.rows, m, v, w);
    match call.op
    case Start(machine, minutes) =>
      if machine in t.machines {
        var swept := Swept(t.rows, Some(machine), now);
        SweptKeepsPast(t.rows, Some(machine), m, now, v, w);
        var rows := swept + [Started(machine, t.nextId, minutes, now)];
        assert UsagesOf(rows)[..|swept|] == UsagesOf(swept);
      }
    case Extend(id, minutes) =>
      var i := Find(t.rows, id);
      if i >= 0 && Current(t.rows[i], now) {
        RowKeepsPast(t.rows[i], now, minutes, v, w);
        UpdateKeepsPast(t.rows, i, Extended(t.rows[i], minutes, now), m, v, w);
      }
    case End(id) =>
      var i := Find(t.rows, id);
      if i >= 0 && Current(t.rows[i], now) {
        RowKeepsPast(t.rows[i], now, 0, v, w);
        UpdateKeepsPast(t.rows, i, Finished(t.rows[i], now), m, v, w);
      }
    case Get(machine) => SweptKeepsPast(t.rows, Some(machine), m, now, v, w);
    case Sweep => SweptKeepsPast(t.rows, None, m, now, v, w);
    case AddMachine(_) =>
    case DeleteMachine(gone) => WithoutOthers(t.rows, gone, m, v);
  }

  lemma {:induction false} UnchangedKeepsPast(rows: seq<Row>, m: MachineId, v: Window, w: Window)
    requires w.from == v.from && w.to == v.to && w.to <= w.now <= v.now
    requires forall i :: 0 <= i < |rows| ==> Sound(rows[i], w.now)
    ensures TotalMs(UsagesOf(rows), m, v) == TotalMs(UsagesOf(rows), m, w)
  {
    forall i | 0 <= i < |rows| ensures Clipped(rows[i].usage, v) == Clipped(rows[i].usage, w) {
      RowKeepsPast(rows[i], v.now, 0, v, w);
    }
    RowByRow(rows, rows, m, v, w);
  }

  lemma {:induction false} LastKeepsPast(t: Table, calls: seq<Call>, m: MachineId, from: Millis, to: Millis,
                                         later: Millis)
    requires calls != []
    requires var n := |calls| - 1;
             to <= calls[n].now <= later && Consistent(After(t, calls[..n]), calls[n].now)
               && calls[n].op != DeleteMachine(m)
    ensures var n := |calls| - 1;
            UsedMs(After(t, calls), m, from, to, later) == UsedMs(After(t, calls[..n]), m, from, to, calls[n].now)
    ensures Consistent(After(t, calls), later)
  {
    var n := |calls| - 1;
    StepKeepsPast(After(t, calls[..n]), calls[n], m, from, to, calls[n].now, later);
    StepKeepsConsistent(After(t, calls[..n]), calls[n], calls[n].now);
  }

  lemma {:induction false} RunKeepsPast(t: Table, calls: seq<Call>, m: MachineId,
                                        from: Millis, to: Millis, at: Millis, later: Millis)
    requires to <= at <= later && Chronological(calls, at) && Consistent(t, at)
    requires forall i :: 0 <= i < |calls| ==> calls[i].now <= later && calls[i].op != DeleteMachine(m)
    ensures UsedMs(After(t, calls), m, from, to, later) == UsedMs(t, m, from, to, at)
    ensures Consistent(After(t, calls), later)
  {
    if calls == [] {
      UnchangedKeepsPast(t.rows, m, Window(from, to, later), Window(from, to, at));
    } else {
      var n := |calls| - 1;
      var last := calls[n].now;
      assert forall i :: 0 <= i < n ==> calls[..n][i] == calls[i];
      assert at <= last by {
        assert n > 0 ==> calls[0].now <= calls[n].now;
      }
      RunKeepsPast(t, calls[..n], m, from, to, at, last);
      LastKeepsPast(t, calls, m, from, to, later);
    }
  }

  /**
    Past reports never change. For a window that has ended, a report made at `at` and one made
    after any later calls give a machine the same time, as long as the machine exists.
   */
  lemma {:induction false} PastReportsNeverChange(earlier: seq<Call>, calls: seq<Call>, m: MachineId,
                               from: Millis, to: Millis, at: Millis, later: Millis)
    requires earlier != [] && Chronological(earlier, earlier[0].now) && earlier[|earlier| - 1].now <= at
    requires to <= at <= later && Chronological(calls, at)
    requires forall i :: 0 <= i < |calls| ==> calls[i].now <= later && calls[i].op != DeleteMachine(m)
    ensures var t := After(Table([], {}, 0), earlier);
            UsedMs(After(t, calls), m, from, to, later) == UsedMs(t, m, from, to, at)
  {
    AlwaysConsistent(earlier);
    RunKeepsPast(After(Table([], {}, 0), earlier), calls, m, from, to, at, later);
  }
}
