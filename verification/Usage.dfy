/**
  Usage accounting (api/src/modules/reports/usage.ts and reports.service.ts).

  Durations are whole milliseconds here; the source divides them by 1000 at once and carries
  seconds as floating point. Sums below are exact.
 */
module Usage {
  import opened Basics
  import opened Session

  datatype UsageSession = UsageSession(
    machineId: MachineId,
    startedAt: Millis,
    expiresAt: Millis,
    endedAt: Option<Millis>,
    status: SessionStatus)

  datatype ReportedMachine = ReportedMachine(id: MachineId, name: string, platform: string)

  datatype MachineUsage = MachineUsage(
    machineId: MachineId,
    name: string,
    platform: string,
    usedSeconds: nat,
    sessionCount: nat)

  datatype ReportedSession = ReportedSession(
    machineId: MachineId,
    startedAt: Millis,
    endedAt: Millis,
    status: SessionStatus,
    usedSeconds: nat)

  /** When the session stopped, or will stop, making the machine usable. */
  function UsableUntil(s: UsageSession, now: Millis): (end: Millis)
    ensures end <= s.expiresAt
  {
    var end := Min(if s.endedAt.Some? then s.endedAt.value else s.expiresAt, s.expiresAt);
    if s.status.Active? then Min(end, now) else end
  }

  /** How much of `[start, end)` falls inside `[from, to)`. */
  function OverlapMs(start: Millis, end: Millis, from: Millis, to: Millis): nat {
    Max(Min(end, to) - Max(start, from), 0)
  }

  /** The window of a report and the instant it is made. */
  datatype Window = Window(from: Millis, to: Millis, now: Millis)

  function Clipped(s: UsageSession, w: Window): nat {
    OverlapMs(s.startedAt, UsableUntil(s, w.now), w.from, w.to)
  }

  /** The time of machine `m` inside the window, and how many of its sessions contribute to it. */
  function TotalMs(sessions: seq<UsageSession>, m: MachineId, w: Window): nat {
    if sessions == [] then 0
    else
      var last := sessions[|sessions| - 1];
      TotalMs(sessions[..|sessions| - 1], m, w) + if last.machineId == m then Clipped(last, w) else 0
  }

  function Contributing(sessions: seq<UsageSession>, m: MachineId, w: Window): nat {
    if sessions == [] then 0
    else
      var last := sessions[|sessions| - 1];
      Contributing(sessions[..|sessions| - 1], m, w) + if last.machineId == m && Clipped(last, w) > 0 then 1 else 0
  }

  // What the arithmetic counts: instants.

  /** The session makes its machine usable at instant `t`, seen from `now`. */
  predicate UsableAt(s: UsageSession, t: Millis, now: Millis) {
    s.startedAt <= t < s.expiresAt && (s.endedAt.Some? ==> t < s.endedAt.value) && (s.status.Active? ==> t < now)
  }

  function Instants(lo: Millis, hi: Millis): (instants: set<Millis>)
    ensures forall t :: t in instants <==> lo <= t < hi
  {
    set t: Millis | lo <= t < hi && Between(t, lo, hi)
  }

  predicate Between(t: Millis, lo: Millis, hi: Millis) {
    lo <= t < hi
  }

  lemma {:induction false} CountInstants(lo: Millis, hi: Millis)
    ensures |Instants(lo, hi)| == Max(hi - lo, 0)
    decreases Max(hi - lo, 0)
  {
    if lo < hi {
      CountInstants(lo + 1, hi);
      assert Instants(lo, hi) == {lo} + Instants(lo + 1, hi);
    } else {
      assert Instants(lo, hi) == {};
    }
  }

  /** The instants of the window at which the session makes its machine usable. */
  function UsableInstants(s: UsageSession, w: Window): (instants: set<Millis>)
    ensures forall t :: t in instants <==> w.from <= t < w.to && UsableAt(s, t, w.now)
  {
    set t: Millis | w.from <= t < w.to && UsableAt(s, t, w.now)
  }

  /**
    A session's share of a window is the number of the window's instants at which it makes the
    machine usable: from its start, until its deadline, until it was ended, and until now if it
    is still running.
   */
  lemma ClippedCountsInstants(s: UsageSession, w: Window)
    ensures Clipped(s, w) == |UsableInstants(s, w)|
  {
    var lo, hi := Max(s.startedAt, w.from), Min(UsableUntil(s, w.now), w.to);
    assert UsableInstants(s, w) == Instants(lo, hi);
    CountInstants(lo, hi);
  }

  // Sorting, as the library does it: a stable order by a total preorder.

  function Insert<T>(x: T, sorted: seq<T>, before: (T, T) -> bool): seq<T> {
    if sorted == [] || before(x, sorted[0]) then [x] + sorted
    else [sorted[0]] + Insert(x, sorted[1..], before)
  }

  /** Inserting from the right end keeps equal elements in their order. */
  function Sorted<T>(xs: seq<T>, before: (T, T) -> bool): seq<T> {
    if xs == [] then [] else Insert(xs[0], Sorted(xs[1..], before), before)
  }

  ghost predicate TotalPreorder<T(!new)>(before: (T, T) -> bool) {
    && (forall a, b :: before(a, b) || before(b, a))
    && (forall a, b, c :: before(a, b) && before(b, c) ==> before(a, c))
  }

  ghost predicate InOrder<T>(xs: seq<T>, before: (T, T) -> bool) {
    forall i, j :: 0 <= i < j < |xs| ==> before(xs[i], xs[j])
  }

  lemma {:induction false} InsertAdds<T>(x: T, xs: seq<T>, before: (T, T) -> bool)
    ensures multiset(Insert(x, xs, before)) == multiset{x} + multiset(xs)
  {
    if xs != [] && !before(x, xs[0]) {
      InsertAdds(x, xs[1..], before);
      assert xs == [xs[0]] + xs[1..];
    }
  }

  lemma {:induction false} InsertSorts<T(!new)>(x: T, xs: seq<T>, before: (T, T) -> bool)
    requires TotalPreorder(before) && InOrder(xs, before)
    ensures InOrder(Insert(x, xs, before), before)
  {
    if xs != [] && !before(x, xs[0]) {
      var rest := Insert(x, xs[1..], before);
      InsertSorts(x, xs[1..], before);
      InsertAdds(x, xs[1..], before);
      forall k | 0 <= k < |rest| ensures before(xs[0], rest[k]) {
        assert rest[k] in multiset(rest);
        if rest[k] != x {
          assert rest[k] in xs[1..];
        }
      }
    }
  }

  lemma {:induction false} SortedSorts<T(!new)>(xs: seq<T>, before: (T, T) -> bool)
    requires TotalPreorder(before)
    ensures InOrder(Sorted(xs, before), before)
    ensures multiset(Sorted(xs, before)) == multiset(xs)
  {
    if xs != [] {
      SortedSorts(xs[1..], before);
      InsertSorts(xs[0], Sorted(xs[1..], before), before);
      InsertAdds(xs[0], Sorted(xs[1..], before), before);
      assert xs == [xs[0]] + xs[1..];
    }
  }

  // The summary.

  /** The machine a row describes: `new Map` keeps the last entry of a repeated key. */
  function Described(machines: seq<ReportedMachine>, m: MachineId): Option<ReportedMachine> {
    if machines == [] then None
    else if machines[|machines| - 1].id == m then Some(machines[|machines| - 1])
    else Described(machines[..|machines| - 1], m)
  }

  /** Most used first, then by name as the locale collates it. */
  predicate Before(collate: string -> int, a: MachineUsage, b: MachineUsage) {
    a.usedSeconds > b.usedSeconds || (a.usedSeconds == b.usedSeconds && collate(a.name) <= collate(b.name))
  }

  /**
    The group-by that a summary is: one row for every machine and no other, each with its own
    machine's total and count, in order.
   */
  ghost predicate IsSummary(rows: seq<MachineUsage>, machines: seq<ReportedMachine>, sessions: seq<UsageSession>,
                            w: Window, collate: string -> int)
  {
    && DistinctIds(rows)
    && (forall m :: m in machines ==> exists i :: 0 <= i < |rows| && rows[i].machineId == m.id)
    && (forall row :: row in rows ==>
          && Described(machines, row.machineId) == Some(ReportedMachine(row.machineId, row.name, row.platform))
          && row.usedSeconds == RoundToSeconds(TotalMs(sessions, row.machineId, w))
          && row.sessionCount == Contributing(sessions, row.machineId, w))
    && Ranked(rows, collate)
  }

  /** Most used first; among equals, by name as the locale collates it. */
  ghost predicate Ranked(rows: seq<MachineUsage>, collate: string -> int) {
    forall i, j :: 0 <= i < j < |rows| ==>
      && rows[i].usedSeconds >= rows[j].usedSeconds
      && (rows[i].usedSeconds == rows[j].usedSeconds ==> collate(rows[i].name) <= collate(rows[j].name))
  }

  /** A row while its milliseconds are still being added up. */
  datatype Tally = Tally(name: string, platform: string, usedMs: nat, sessionCount: nat)

  ghost predicate Tallies(rows: map<MachineId, Tally>, machines: seq<ReportedMachine>, sessions: seq<UsageSession>,
                          w: Window) {
    forall m: MachineId ::
      (m in rows <==> Described(machines, m).Some?) &&
      (m in rows ==> && Described(machines, m) == Some(ReportedMachine(m, rows[m].name, rows[m].platform))
                     && rows[m].usedMs == TotalMs(sessions, m, w)
                     && rows[m].sessionCount == Contributing(sessions, m, w))
  }

  function RowOf(m: MachineId, t: Tally): MachineUsage {
    MachineUsage(m, t.name, t.platform, RoundToSeconds(t.usedMs), t.sessionCount)
  }

  /** `new Map(machines.map(...))`, and the order in which its keys were first inserted. */
  method TallyMachines(machines: seq<ReportedMachine>, ghost w: Window)
    returns (rows: map<MachineId, Tally>, order: seq<MachineId>)
    ensures Tallies(rows, machines, [], w)
    ensures forall m :: m in order <==> m in rows
    ensures forall a, b :: 0 <= a < b < |order| ==> order[a] != order[b]
  {
    rows, order := map[], [];
    for i := 0 to |machines|
      invariant Tallies(rows, machines[..i], [], w)
      invariant forall m :: m in order <==> m in rows
      invariant forall a, b :: 0 <= a < b < |order| ==> order[a] != order[b]
    {
      assert machines[..i + 1][..i] == machines[..i];
      var machine := machines[i];
      if machine.id !in rows {
        order := order + [machine.id];
      }
      rows := rows[machine.id := Tally(machine.name, machine.platform, 0, 0)];
    }
    assert machines[..|machines|] == machines;
  }

  method SummarizeUsage(machines: seq<ReportedMachine>, sessions: seq<UsageSession>, w: Window, collate: string -> int)
    returns (summary: seq<MachineUsage>)
    ensures IsSummary(summary, machines, sessions, w, collate)
  {
    var rows: map<MachineId, Tally>, order: seq<MachineId> := TallyMachines(machines, w);
    for i := 0 to |sessions|
      invariant Tallies(rows, machines, sessions[..i], w)
      invariant forall m :: m in order <==> m in rows
    {
      assert sessions[..i + 1][..i] == sessions[..i];
      var session := sessions[i];
      if session.machineId in rows {
        var ms := OverlapMs(session.startedAt, UsableUntil(session, w.now), w.from, w.to);
        if ms > 0 {
          var row := rows[session.machineId];
          rows := rows[session.machineId := row.(usedMs := row.usedMs + ms, sessionCount := row.sessionCount + 1)];
        }
      }
    }
    assert sessions[..|sessions|] == sessions;
    var unsorted := seq(|order|, i requires 0 <= i < |order| && order[i] in rows => RowOf(order[i], rows[order[i]]));
    summary := Sorted(unsorted, (a, b) => Before(collate, a, b));
    SummarySorts(unsorted, summary, collate);
    RearrangedIsSummary(rows, order, unsorted, summary, machines, sessions, w, collate);
  }

  /** Finished tallies, one row each, in order, are the summary. */
  lemma RearrangedIsSummary(rows: map<MachineId, Tally>, order: seq<MachineId>, unsorted: seq<MachineUsage>,
                            summary: seq<MachineUsage>, machines: seq<ReportedMachine>, sessions: seq<UsageSession>,
                            w: Window, collate: string -> int)
    requires Tallies(rows, machines, sessions, w) && forall m :: m in order <==> m in rows
    requires |unsorted| == |order|
    requires forall i :: 0 <= i < |order| ==> unsorted[i] == RowOf(order[i], rows[order[i]])
    requires multiset(summary) == multiset(unsorted) && DistinctIds(summary)
    requires Ranked(summary, collate)
    ensures IsSummary(summary, machines, sessions, w, collate)
  {
    MachinesAreDescribed(machines);
    forall row | row in summary
      ensures row.machineId in rows && row == RowOf(row.machineId, rows[row.machineId])
    {
      assert row in multiset(unsorted);
      var i :| 0 <= i < |unsorted| && unsorted[i] == row;
      assert order[i] in order;
    }
    forall m | m in machines
      ensures exists i :: 0 <= i < |summary| && summary[i].machineId == m.id
    {
      var k :| 0 <= k < |order| && order[k] == m.id;
      assert unsorted[k] in multiset(summary);
    }
  }

  lemma {:induction false} MachinesAreDescribed(machines: seq<ReportedMachine>)
    ensures forall m :: m in machines ==> Described(machines, m.id).Some?
  {
    if machines != [] {
      MachinesAreDescribed(machines[..|machines| - 1]);
    }
  }

  lemma {:induction false} DistinctCount<T>(xs: seq<T>, x: T)
    requires forall i, j :: 0 <= i < j < |xs| ==> xs[i] != xs[j]
    ensures multiset(xs)[x] <= 1
  {
    if xs != [] {
      var n := |xs| - 1;
      DistinctCount(xs[..n], x);
      assert xs == xs[..n] + [xs[n]];
      if xs[n] == x {
        assert x !in xs[..n];
      }
    }
  }

  lemma RepeatedCount<T>(xs: seq<T>, i: nat, j: nat)
    requires i < j < |xs| && xs[i] == xs[j]
    ensures multiset(xs)[xs[i]] >= 2
  {
    assert xs == xs[..j] + xs[j..];
    assert xs[..j][i] == xs[i] && xs[j..][0] == xs[i];
    assert multiset(xs) == multiset(xs[..j]) + multiset(xs[j..]);
  }

  ghost predicate DistinctIds(rows: seq<MachineUsage>) {
    forall i, j :: 0 <= i < j < |rows| ==> rows[i].machineId != rows[j].machineId
  }

  /** Rearranging rows of distinct machines keeps them distinct. */
  lemma RearrangedDistinct(rows: seq<MachineUsage>, rows': seq<MachineUsage>)
    requires DistinctIds(rows) && multiset(rows') == multiset(rows)
    ensures DistinctIds(rows')
  {
    forall i, j | 0 <= i < j < |rows'|
      ensures rows'[i].machineId != rows'[j].machineId
    {
      assert rows'[i] in multiset(rows) && rows'[j] in multiset(rows);
      if rows'[i].machineId == rows'[j].machineId {
        RepeatedCount(rows', i, j);
        DistinctCount(rows, rows'[i]);
      }
    }
  }

  lemma {:induction false} SummarySorts(unsorted: seq<MachineUsage>, summary: seq<MachineUsage>, collate: string -> int)
    requires DistinctIds(unsorted)
    requires summary == Sorted(unsorted, (a, b) => Before(collate, a, b))
    ensures multiset(summary) == multiset(unsorted) && DistinctIds(summary)
    ensures Ranked(summary, collate)
  {
    var before := (a, b) => Before(collate, a, b);
    SortedSorts(unsorted, before);
    RearrangedDistinct(unsorted, summary);
    forall i, j | 0 <= i < j < |summary|
      ensures summary[i].usedSeconds >= summary[j].usedSeconds
      ensures summary[i].usedSeconds == summary[j].usedSeconds ==> collate(summary[i].name) <= collate(summary[j].name)
    {
      assert before(summary[i], summary[j]);
    }
  }

  // What a summary does not depend on.

  lemma {:induction false} TotalsConcat(a: seq<UsageSession>, b: seq<UsageSession>, m: MachineId, w: Window)
    ensures TotalMs(a + b, m, w) == TotalMs(a, m, w) + TotalMs(b, m, w)
    ensures Contributing(a + b, m, w) == Contributing(a, m, w) + Contributing(b, m, w)
  {
    if b == [] {
      assert a + b == a;
    } else {
      assert (a + b)[..|a + b| - 1] == a + b[..|b| - 1];
      TotalsConcat(a, b[..|b| - 1], m, w);
    }
  }

  /** Taking one occurrence out of a sequence. */
  lemma WithoutOne<T>(s: seq<T>, i: nat)
    requires i < |s|
    ensures multiset(s[..i] + s[i + 1..]) == multiset(s) - multiset{s[i]}
  {
    assert s == s[..i] + ([s[i]] + s[i + 1..]);
    assert multiset(s) == multiset(s[..i]) + (multiset{s[i]} + multiset(s[i + 1..]));
  }

  lemma TakenOut<T>(a: seq<T>, b: seq<T>, i: nat)
    requires a != [] && multiset(a) == multiset(b) && i < |b| && b[i] == a[|a| - 1]
    ensures multiset(a[..|a| - 1]) == multiset(b[..i] + b[i + 1..])
  {
    var n := |a| - 1;
    WithoutOne(a, n);
    WithoutOne(b, i);
    assert a[..n] + a[n + 1..] == a[..n];
  }

  lemma {:induction false} TotalsWithout(b: seq<UsageSession>, i: nat, m: MachineId, w: Window)
    requires i < |b|
    ensures TotalMs(b, m, w) == TotalMs(b[..i] + b[i + 1..], m, w) + TotalMs([b[i]], m, w)
    ensures Contributing(b, m, w) == Contributing(b[..i] + b[i + 1..], m, w) + Contributing([b[i]], m, w)
  {
    TotalsConcat(b[..i], b[i + 1..], m, w);
    TotalsConcat(b[..i], [b[i]], m, w);
    TotalsConcat(b[..i] + [b[i]], b[i + 1..], m, w);
    assert b == b[..i] + [b[i]] + b[i + 1..];
  }

  /** Totals and counts are sums over the sessions, in whatever order they come. */
  lemma {:induction false} TotalsIgnoreOrder(a: seq<UsageSession>, b: seq<UsageSession>, m: MachineId, w: Window)
    requires multiset(a) == multiset(b)
    ensures TotalMs(a, m, w) == TotalMs(b, m, w)
    ensures Contributing(a, m, w) == Contributing(b, m, w)
  {
    if a == [] {
      assert |multiset(b)| == 0;
      assert b == [];
    } else {
      var n := |a| - 1;
      assert a[n] in multiset(b);
      var i :| 0 <= i < |b| && b[i] == a[n];
      TakenOut(a, b, i);
      TotalsIgnoreOrder(a[..n], b[..i] + b[i + 1..], m, w);
      TotalsWithout(b, i, m, w);
      TotalsWithout(a, n, m, w);
      assert a[..n] + a[n + 1..] == a[..n];
    }
  }

  /** The database's candidate filter. */
  predicate Candidate(s: UsageSession, w: Window) {
    s.startedAt < w.to && s.expiresAt > w.from
  }

  function Candidates(sessions: seq<UsageSession>, w: Window): seq<UsageSession> {
    if sessions == [] then []
    else
      var last := sessions[|sessions| - 1];
      Candidates(sessions[..|sessions| - 1], w) + if Candidate(last, w) then [last] else []
  }

  /** The filter is the query's: started before the window's end, and due after its start. */
  lemma {:induction false} CandidatesAre(sessions: seq<UsageSession>, w: Window, s: UsageSession)
    ensures s in Candidates(sessions, w) <==> s in sessions && s.startedAt < w.to && s.expiresAt > w.from
  {
    if sessions != [] {
      var n := |sessions| - 1;
      CandidatesAre(sessions[..n], w, s);
      assert sessions == sessions[..n] + [sessions[n]];
    }
  }

  /** What the filter leaves out contributes nothing. */
  lemma {:induction false} FilterLosesNothing(sessions: seq<UsageSession>, m: MachineId, w: Window)
    ensures TotalMs(Candidates(sessions, w), m, w) == TotalMs(sessions, m, w)
    ensures Contributing(Candidates(sessions, w), m, w) == Contributing(sessions, m, w)
  {
    if sessions != [] {
      var n := |sessions| - 1;
      FilterLosesNothing(sessions[..n], m, w);
      var kept := if Candidate(sessions[n], w) then [sessions[n]] else [];
      TotalsConcat(Candidates(sessions[..n], w), kept, m, w);
    }
  }

  /** Two summaries whose sessions give equal totals and counts have the same rows. */
  lemma {:induction false} SameTotalsSameRows(a: seq<MachineUsage>, b: seq<MachineUsage>,
                                              machines: seq<ReportedMachine>, s: seq<UsageSession>,
                                              t: seq<UsageSession>, w: Window, collate: string -> int)
    requires IsSummary(a, machines, s, w, collate) && IsSummary(b, machines, t, w, collate)
    requires forall m :: TotalMs(s, m, w) == TotalMs(t, m, w) && Contributing(s, m, w) == Contributing(t, m, w)
    ensures multiset(a) == multiset(b)
  {
    RowsIncluded(a, b, machines, s, t, w, collate);
    RowsIncluded(b, a, machines, t, s, w, collate);
    forall row ensures multiset(a)[row] == multiset(b)[row] {
      DistinctCount(a, row);
      DistinctCount(b, row);
      assert row in a <==> row in multiset(a);
      assert row in b <==> row in multiset(b);
    }
  }

  lemma {:induction false} RowsIncluded(a: seq<MachineUsage>, b: seq<MachineUsage>, machines: seq<ReportedMachine>,
                                        s: seq<UsageSession>, t: seq<UsageSession>, w: Window, collate: string -> int)
    requires IsSummary(a, machines, s, w, collate) && IsSummary(b, machines, t, w, collate)
    requires forall m :: TotalMs(s, m, w) == TotalMs(t, m, w) && Contributing(s, m, w) == Contributing(t, m, w)
    ensures forall row :: row in a ==> row in b
  {
    forall row | row in a ensures row in b {
      DescribedIsListed(machines, row.machineId);
      var machine := Described(machines, row.machineId).value;
      assert machine in machines;
      var i :| 0 <= i < |b| && b[i].machineId == row.machineId;
      assert b[i] in b;
      assert b[i] == row;
    }
  }

  lemma {:induction false} DescribedIsListed(machines: seq<ReportedMachine>, m: MachineId)
    requires Described(machines, m).Some?
    ensures Described(machines, m).value in machines && Described(machines, m).value.id == m
  {
    if machines[|machines| - 1].id != m {
      DescribedIsListed(machines[..|machines| - 1], m);
    }
  }

  /**
    A summary is the same, row for row, in whatever order the database returns the sessions, and
    whether or not it has filtered them first.
   */
  lemma {:induction false} SummaryIgnoresOrderAndFilter(a: seq<MachineUsage>, b: seq<MachineUsage>,
                                                        machines: seq<ReportedMachine>, all: seq<UsageSession>,
                                                        returned: seq<UsageSession>, w: Window,
                                                        collate: string -> int)
    requires multiset(returned) == multiset(Candidates(all, w))
    requires IsSummary(a, machines, all, w, collate) && IsSummary(b, machines, returned, w, collate)
    ensures multiset(a) == multiset(b)
  {
    forall m ensures TotalMs(all, m, w) == TotalMs(returned, m, w)
      && Contributing(all, m, w) == Contributing(returned, m, w)
    {
      FilterLosesNothing(all, m, w);
      TotalsIgnoreOrder(Candidates(all, w), returned, m, w);
    }
    SameTotalsSameRows(a, b, machines, all, returned, w, collate);
  }
}
