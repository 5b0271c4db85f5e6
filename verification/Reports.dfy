/** The usage report (api/src/modules/reports/reports.service.ts) and its daily buckets (web/src/lib/daily-usage.ts). */
module Reports {
  import opened Basics
  import opened Session
  import opened Usage

  const MAX_RANGE_MS := 366 * 24 * 60 * 60 * 1000

  datatype ReportError = EmptyRange | RangeTooLong

  datatype UsageReport = UsageReport(
    from: Millis,
    to: Millis,
    totalUsedSeconds: nat,
    machines: seq<MachineUsage>,
    sessions: seq<ReportedSession>)

  function Reported(s: UsageSession, w: Window): ReportedSession {
    ReportedSession(s.machineId, s.startedAt, UsableUntil(s, w.now), s.status, RoundToSeconds(Clipped(s, w)))
  }

  /** The sessions that contribute, newest first. */
  function ReportSessions(sessions: seq<UsageSession>, w: Window): seq<ReportedSession> {
    var positive := Positive(sessions, w);
    AllReported(Sorted(positive, (a: UsageSession, b: UsageSession) => a.startedAt >= b.startedAt), w)
  }

  function AllReported(sessions: seq<UsageSession>, w: Window): (reported: seq<ReportedSession>)
    ensures |reported| == |sessions|
  {
    seq(|sessions|, i requires 0 <= i < |sessions| => Reported(sessions[i], w))
  }

  function Positive(sessions: seq<UsageSession>, w: Window): seq<UsageSession> {
    if sessions == [] then []
    else
      var last := sessions[|sessions| - 1];
      Positive(sessions[..|sessions| - 1], w) + if Clipped(last, w) > 0 then [last] else []
  }

  function OfMachines(sessions: seq<ReportedSession>, known: set<MachineId>): seq<ReportedSession> {
    if sessions == [] then []
    else
      var last := sessions[|sessions| - 1];
      OfMachines(sessions[..|sessions| - 1], known) + if last.machineId in known then [last] else []
  }

  function SumSeconds(rows: seq<MachineUsage>): nat {
    if rows == [] then 0 else SumSeconds(rows[..|rows| - 1]) + rows[|rows| - 1].usedSeconds
  }

  /** The `reduce` over the rows. */
  method TotalUsedSeconds(rows: seq<MachineUsage>) returns (total: nat)
    ensures total == SumSeconds(rows)
  {
    total := 0;
    for i := 0 to |rows|
      invariant total == SumSeconds(rows[..i])
    {
      assert rows[..i + 1][..i] == rows[..i];
      total := total + rows[i].usedSeconds;
    }
    assert rows[..|rows|] == rows;
  }

  /** `all` is the whole session table; the database applies the candidate filter. */
  method UsageReportFor(from: Millis, to: Millis, now: Millis, machines: seq<ReportedMachine>, all: seq<UsageSession>,
               collate: string -> int) returns (r: Result<UsageReport, ReportError>)
    ensures to <= from ==> r == Err(EmptyRange)
    ensures to > from + 366 * 86_400_000 ==> r == Err(RangeTooLong)
    ensures from < to <= from + 366 * 86_400_000 ==>
              && r.Ok? && r.value.from == from && r.value.to == to
              && IsSummary(r.value.machines, machines, all, Window(from, to, now), collate)
              && r.value.totalUsedSeconds == SumSeconds(r.value.machines)
              && r.value.sessions == ReportedFrom(machines, all, Window(from, to, now))
  {
    if to <= from {
      return Err(EmptyRange);
    }
    if to - from > MAX_RANGE_MS {
      return Err(RangeTooLong);
    }
    var w := Window(from, to, now);
    var sessions := Candidates(all, w);
    var rows := SummarizeUsage(machines, sessions, w, collate);
    FilteredSummary(rows, machines, all, w, collate);
    var total := TotalUsedSeconds(rows);
    PositiveIsCandidate(all, w);
    r := Ok(UsageReport(from, to, total, rows, OfMachines(ReportSessions(sessions, w), Known(machines))));
  }

  /** A summary of the candidates is a summary of all sessions. */
  lemma {:induction false} FilteredSummary(rows: seq<MachineUsage>, machines: seq<ReportedMachine>,
                                           all: seq<UsageSession>, w: Window, collate: string -> int)
    requires IsSummary(rows, machines, Candidates(all, w), w, collate)
    ensures IsSummary(rows, machines, all, w, collate)
  {
    forall m ensures TotalMs(Candidates(all, w), m, w) == TotalMs(all, m, w)
      && Contributing(Candidates(all, w), m, w) == Contributing(all, m, w)
    {
      FilterLosesNothing(all, m, w);
    }
  }

  function Known(machines: seq<ReportedMachine>): set<MachineId> {
    set machine | machine in machines :: machine.id
  }

  function ReportedFrom(machines: seq<ReportedMachine>, all: seq<UsageSession>, w: Window): seq<ReportedSession> {
    OfMachines(ReportSessions(all, w), Known(machines))
  }

  lemma {:induction false} PositiveIsCandidate(sessions: seq<UsageSession>, w: Window)
    ensures Positive(Candidates(sessions, w), w) == Positive(sessions, w)
  {
    if sessions != [] {
      var n := |sessions| - 1;
      PositiveIsCandidate(sessions[..n], w);
      var kept := Candidates(sessions[..n], w);
      if Candidate(sessions[n], w) {
        assert (kept + [sessions[n]])[..|kept|] == kept;
      } else {
        assert kept + [] == kept;
      }
    }
  }

  // Buckets.

  /** Milliseconds of the reported sessions inside `[from, to)`. */
  function BucketMs(sessions: seq<ReportedSession>, from: Millis, to: Millis): nat {
    if sessions == [] then 0
    else
      var last := sessions[|sessions| - 1];
      BucketMs(sessions[..|sessions| - 1], from, to) + OverlapMs(last.startedAt, last.endedAt, from, to)
  }

  /** Local midnights: the start of every day and the end of the last, strictly increasing. */
  predicate Midnights(bounds: seq<Millis>) {
    |bounds| >= 1 && forall i :: 0 < i < |bounds| ==> bounds[i - 1] < bounds[i]
  }

  /** One rounded entry per local day, days without usage included. */
  method DailyUsage(sessions: seq<ReportedSession>, bounds: seq<Millis>) returns (days: seq<nat>)
    requires Midnights(bounds)
    ensures |days| == |bounds| - 1
    ensures forall i :: 0 <= i < |days| ==> days[i] == RoundToSeconds(BucketMs(sessions, bounds[i], bounds[i + 1]))
  {
    days := [];
    var cursor := 0;
    while cursor < |bounds| - 1
      invariant 0 <= cursor == |days| <= |bounds| - 1
      invariant forall i :: 0 <= i < cursor ==> days[i] == RoundToSeconds(BucketMs(sessions, bounds[i], bounds[i + 1]))
    {
      var dayStart, dayEnd := bounds[cursor], bounds[cursor + 1];
      var ms := 0;
      for i := 0 to |sessions|
        invariant ms == BucketMs(sessions[..i], dayStart, dayEnd)
      {
        assert sessions[..i + 1][..i] == sessions[..i];
        ms := ms + OverlapMs(sessions[i].startedAt, sessions[i].endedAt, dayStart, dayEnd);
      }
      assert sessions[..|sessions|] == sessions;
      days := days + [RoundToSeconds(ms)];
      cursor := cursor + 1;
    }
  }

  /** The exact milliseconds of each day. */
  function DaysMs(sessions: seq<ReportedSession>, bounds: seq<Millis>): (days: seq<nat>)
    requires |bounds| >= 1
    ensures |days| == |bounds| - 1
  {
    seq(|bounds| - 1, i requires 0 <= i < |bounds| - 1 => BucketMs(sessions, bounds[i], bounds[i + 1]))
  }

  function Sum(xs: seq<nat>): nat {
    if xs == [] then 0 else Sum(xs[..|xs| - 1]) + xs[|xs| - 1]
  }

  /** Neighbouring windows split a session's time between them. */
  lemma {:induction false} BucketsAdd(sessions: seq<ReportedSession>, a: Millis, b: Millis, c: Millis)
    requires a <= b <= c
    ensures BucketMs(sessions, a, b) + BucketMs(sessions, b, c) == BucketMs(sessions, a, c)
  {
    if sessions != [] {
      BucketsAdd(sessions[..|sessions| - 1], a, b, c);
      OverlapsAdd(sessions[|sessions| - 1].startedAt, sessions[|sessions| - 1].endedAt, a, b, c);
    }
  }

  lemma OverlapsAdd(start: Millis, end: Millis, a: Millis, b: Millis, c: Millis)
    requires a <= b <= c
    ensures OverlapMs(start, end, a, b) + OverlapMs(start, end, b, c) == OverlapMs(start, end, a, c)
  {
  }

  /** Tiling conserves time: the days of a window add up to the window. */
  lemma {:induction false} DaysTileTheWindow(sessions: seq<ReportedSession>, bounds: seq<Millis>)
    requires Midnights(bounds)
    ensures bounds[0] <= bounds[|bounds| - 1]
    ensures Sum(DaysMs(sessions, bounds)) == BucketMs(sessions, bounds[0], bounds[|bounds| - 1])
  {
    var n := |bounds| - 1;
    if n == 0 {
      EmptyBucket(sessions, bounds[0]);
    } else {
      DaysTileTheWindow(sessions, bounds[..n]);
      assert DaysMs(sessions, bounds)[..n - 1] == DaysMs(sessions, bounds[..n]);
      BucketsAdd(sessions, bounds[0], bounds[n - 1], bounds[n]);
    }
  }

  lemma {:induction false} EmptyBucket(sessions: seq<ReportedSession>, at: Millis)
    ensures BucketMs(sessions, at, at) == 0
  {
    if sessions != [] {
      EmptyBucket(sessions[..|sessions| - 1], at);
    }
  }

  // A report's days, sessions and machines measure the same time.

  function SumTotals(ids: seq<MachineId>, sessions: seq<UsageSession>, w: Window): nat {
    if ids == [] then 0 else SumTotals(ids[..|ids| - 1], sessions, w) + TotalMs(sessions, ids[|ids| - 1], w)
  }

  function KnownMs(sessions: seq<UsageSession>, known: set<MachineId>, w: Window): nat {
    if sessions == [] then 0
    else
      var last := sessions[|sessions| - 1];
      KnownMs(sessions[..|sessions| - 1], known, w) + if last.machineId in known then Clipped(last, w) else 0
  }

  lemma {:induction false} KnownConcat(a: seq<UsageSession>, b: seq<UsageSession>, known: set<MachineId>, w: Window)
    ensures KnownMs(a + b, known, w) == KnownMs(a, known, w) + KnownMs(b, known, w)
  {
    if b == [] {
      assert a + b == a;
    } else {
      assert (a + b)[..|a + b| - 1] == a + b[..|b| - 1];
      KnownConcat(a, b[..|b| - 1], known, w);
    }
  }

  lemma {:induction false} KnownIgnoresInsertion(x: UsageSession, xs: seq<UsageSession>, known: set<MachineId>,
                                                 w: Window, before: (UsageSession, UsageSession) -> bool)
    ensures KnownMs(Insert(x, xs, before), known, w) == KnownMs([x], known, w) + KnownMs(xs, known, w)
  {
    if xs == [] || before(x, xs[0]) {
      KnownConcat([x], xs, known, w);
    } else {
      KnownIgnoresInsertion(x, xs[1..], known, w, before);
      KnownConcat([xs[0]], Insert(x, xs[1..], before), known, w);
      KnownConcat([xs[0]], xs[1..], known, w);
      assert xs == [xs[0]] + xs[1..];
    }
  }

  lemma {:induction false} KnownIgnoresSorting(xs: seq<UsageSession>, known: set<MachineId>, w: Window,
                                              before: (UsageSession, UsageSession) -> bool)
    ensures KnownMs(Sorted(xs, before), known, w) == KnownMs(xs, known, w)
  {
    if xs != [] {
      KnownIgnoresSorting(xs[1..], known, w, before);
      KnownIgnoresInsertion(xs[0], Sorted(xs[1..], before), known, w, before);
      KnownConcat([xs[0]], xs[1..], known, w);
      assert xs == [xs[0]] + xs[1..];
    }
  }

  lemma {:induction false} KnownIgnoresZeros(xs: seq<UsageSession>, known: set<MachineId>, w: Window)
    ensures KnownMs(Positive(xs, w), known, w) == KnownMs(xs, known, w)
  {
    if xs != [] {
      var n := |xs| - 1;
      KnownIgnoresZeros(xs[..n], known, w);
      KnownConcat(Positive(xs[..n], w), if Clipped(xs[n], w) > 0 then [xs[n]] else [], known, w);
    }
  }

  lemma BucketStep(reported: seq<ReportedSession>, known: set<MachineId>, from: Millis, to: Millis)
    requires reported != []
    ensures var n := |reported| - 1;
            BucketMs(OfMachines(reported, known), from, to) ==
            BucketMs(OfMachines(reported[..n], known), from, to)
            + if reported[n].machineId in known
              then OverlapMs(reported[n].startedAt, reported[n].endedAt, from, to) else 0
  {
    var n := |reported| - 1;
    var earlier := OfMachines(reported[..n], known);
    if reported[n].machineId in known {
      assert (earlier + [reported[n]])[..|earlier|] == earlier;
    } else {
      assert earlier + [] == earlier;
    }
  }

  lemma {:induction false} ReportedIsKnown(sessions: seq<UsageSession>, known: set<MachineId>, w: Window)
    ensures BucketMs(OfMachines(AllReported(sessions, w), known), w.from, w.to) == KnownMs(sessions, known, w)
  {
    if sessions != [] {
      var n := |sessions| - 1;
      ReportedIsKnown(sessions[..n], known, w);
      assert AllReported(sessions, w)[..n] == AllReported(sessions[..n], w);
      BucketStep(AllReported(sessions, w), known, w.from, w.to);
    }
  }

  /** The listed sessions hold exactly the time of the known machines. */
  lemma {:induction false} ReportedTime(machines: seq<ReportedMachine>, all: seq<UsageSession>, w: Window)
    ensures BucketMs(ReportedFrom(machines, all, w), w.from, w.to) == KnownMs(all, Known(machines), w)
  {
    var before := (a: UsageSession, b: UsageSession) => a.startedAt >= b.startedAt;
    var newest := Sorted(Positive(all, w), before);
    ReportedIsKnown(newest, Known(machines), w);
    KnownIgnoresSorting(Positive(all, w), Known(machines), w, before);
    KnownIgnoresZeros(all, Known(machines), w);
  }

  predicate Distinct(ids: seq<MachineId>) {
    forall i, j :: 0 <= i < j < |ids| ==> ids[i] != ids[j]
  }

  lemma {:induction false} OneMoreSession(ids: seq<MachineId>, sessions: seq<UsageSession>, w: Window)
    requires Distinct(ids) && sessions != []
    ensures var n := |sessions| - 1;
            SumTotals(ids, sessions, w) ==
            SumTotals(ids, sessions[..n], w) + if sessions[n].machineId in ids then Clipped(sessions[n], w) else 0
  {
    if ids != [] {
      OneMoreSession(ids[..|ids| - 1], sessions, w);
    }
  }

  lemma {:induction false} NoSessions(ids: seq<MachineId>, w: Window)
    ensures SumTotals(ids, [], w) == 0
  {
    if ids != [] {
      NoSessions(ids[..|ids| - 1], w);
    }
  }

  lemma {:induction false} MachinesShareKnownTime(ids: seq<MachineId>, sessions: seq<UsageSession>,
                                                  known: set<MachineId>, w: Window)
    requires Distinct(ids) && forall m :: m in ids <==> m in known
    ensures SumTotals(ids, sessions, w) == KnownMs(sessions, known, w)
  {
    if sessions == [] {
      NoSessions(ids, w);
    } else {
      MachinesShareKnownTime(ids, sessions[..|sessions| - 1], known, w);
      OneMoreSession(ids, sessions, w);
    }
  }

  function Ids(rows: seq<MachineUsage>): seq<MachineId> {
    seq(|rows|, i requires 0 <= i < |rows| => rows[i].machineId)
  }

  /**
    Before rounding, a report accounts for one and the same time three ways: by machine, by
    session, and by local day, for any midnights that tile its window.
   */
  lemma {:induction false} ReportConservesTime(rows: seq<MachineUsage>, machines: seq<ReportedMachine>,
                                               all: seq<UsageSession>, w: Window,
                                               collate: string -> int, bounds: seq<Millis>)
    requires IsSummary(rows, machines, all, w, collate)
    requires Midnights(bounds) && bounds[0] == w.from && bounds[|bounds| - 1] == w.to
    ensures var sessions := ReportedFrom(machines, all, w);
            && Sum(DaysMs(sessions, bounds)) == BucketMs(sessions, w.from, w.to)
            && BucketMs(sessions, w.from, w.to) == SumTotals(Ids(rows), all, w)
  {
    DaysTileTheWindow(ReportedFrom(machines, all, w), bounds);
    ReportedTime(machines, all, w);
    var ids := Ids(rows);
    forall m: MachineId ensures m in ids <==> m in Known(machines) {
      if m in ids {
        var i :| 0 <= i < |rows| && rows[i].machineId == m;
        assert rows[i] in rows;
        DescribedIsListed(machines, m);
      }
      if m in Known(machines) {
        var machine :| machine in machines && machine.id == m;
        var i :| 0 <= i < |rows| && rows[i].machineId == machine.id;
        assert ids[i] == m;
      }
    }
    MachinesShareKnownTime(ids, all, Known(machines), w);
  }

  // The list of sessions behind a report.

  function ListedOf(sessions: seq<ReportedSession>, m: MachineId): nat {
    if sessions == [] then 0
    else
      var last := sessions[|sessions| - 1];
      ListedOf(sessions[..|sessions| - 1], m) + if last.machineId == m then 1 else 0
  }

  lemma {:induction false} PositiveCounts(sessions: seq<UsageSession>, m: MachineId, w: Window)
    ensures Contributing(Positive(sessions, w), m, w) == Contributing(sessions, m, w)
    ensures forall s :: s in Positive(sessions, w) ==> Clipped(s, w) > 0
  {
    if sessions != [] {
      var n := |sessions| - 1;
      PositiveCounts(sessions[..n], m, w);
      TotalsConcat(Positive(sessions[..n], w), if Clipped(sessions[n], w) > 0 then [sessions[n]] else [], m, w);
    }
  }

  lemma {:induction false} ListedStep(reported: seq<ReportedSession>, known: set<MachineId>, m: MachineId)
    requires reported != [] && m in known
    ensures var n := |reported| - 1;
            ListedOf(OfMachines(reported, known), m) ==
            ListedOf(OfMachines(reported[..n], known), m) + if reported[n].machineId == m then 1 else 0
  {
    var n := |reported| - 1;
    var earlier := OfMachines(reported[..n], known);
    if reported[n].machineId in known {
      assert (earlier + [reported[n]])[..|earlier|] == earlier;
    } else {
      assert earlier + [] == earlier;
    }
  }

  lemma {:induction false} ListedCounts(sessions: seq<UsageSession>, known: set<MachineId>, m: MachineId, w: Window)
    requires m in known && forall s :: s in sessions ==> Clipped(s, w) > 0
    ensures ListedOf(OfMachines(AllReported(sessions, w), known), m) == Contributing(sessions, m, w)
  {
    if sessions != [] {
      var n := |sessions| - 1;
      ListedCounts(sessions[..n], known, m, w);
      assert AllReported(sessions, w)[..n] == AllReported(sessions[..n], w);
      assert Clipped(sessions[n], w) > 0;
      ListedStep(AllReported(sessions, w), known, m);
    }
  }

  lemma {:induction false} FilterKeepsOrder(sessions: seq<ReportedSession>, known: set<MachineId>)
    requires forall i, j :: 0 <= i < j < |sessions| ==> sessions[i].startedAt >= sessions[j].startedAt
    ensures var kept := OfMachines(sessions, known);
            && (forall i, j :: 0 <= i < j < |kept| ==> kept[i].startedAt >= kept[j].startedAt)
            && (forall s :: s in kept ==> s in sessions && s.machineId in known)
  {
    if sessions != [] {
      FilterKeepsOrder(sessions[..|sessions| - 1], known);
      var kept := OfMachines(sessions[..|sessions| - 1], known);
      assert forall i :: 0 <= i < |kept| ==> kept[i] in sessions[..|sessions| - 1];
    }
  }

  lemma {:induction false} OfMachinesAre(sessions: seq<ReportedSession>, known: set<MachineId>, r: ReportedSession)
    requires r in OfMachines(sessions, known)
    ensures r in sessions
  {
    if r in OfMachines(sessions[..|sessions| - 1], known) {
      OfMachinesAre(sessions[..|sessions| - 1], known, r);
    }
  }

  lemma {:induction false} PositiveAre(sessions: seq<UsageSession>, w: Window, s: UsageSession)
    requires s in Positive(sessions, w)
    ensures s in sessions
  {
    if s in Positive(sessions[..|sessions| - 1], w) {
      PositiveAre(sessions[..|sessions| - 1], w, s);
    }
  }

  lemma ListedSession(machines: seq<ReportedMachine>, all: seq<UsageSession>, w: Window, r: ReportedSession)
    returns (s: UsageSession)
    requires r in ReportedFrom(machines, all, w)
    ensures s in all && r == Reported(s, w)
  {
    var before := (a: UsageSession, b: UsageSession) => a.startedAt >= b.startedAt;
    var newest := Sorted(Positive(all, w), before);
    OfMachinesAre(ReportSessions(all, w), Known(machines), r);
    var i :| 0 <= i < |newest| && Reported(newest[i], w) == r;
    s := newest[i];
    SortedSorts(Positive(all, w), before);
    assert s in multiset(Positive(all, w));
    PositiveAre(all, w, s);
  }

  lemma ReportedTells(s: UsageSession, w: Window)
    ensures var r := Reported(s, w);
            && s.machineId == r.machineId && s.startedAt == r.startedAt && s.status == r.status
            && r.usedSeconds == RoundToSeconds(|UsableInstants(s, w)|)
            && (forall t :: UsableAt(s, t, w.now) <==> s.startedAt <= t < r.endedAt)
  {
    ClippedCountsInstants(s, w);
  }

  /**
    Every listed session is one of the table's, with its machine, its start, its status, the end
    of its use, and its time inside the window, rounded.
   */
  lemma ListIsFaithful(machines: seq<ReportedMachine>, all: seq<UsageSession>, w: Window, r: ReportedSession)
    requires r in ReportedFrom(machines, all, w)
    ensures exists s :: s in all && s.machineId == r.machineId && s.startedAt == r.startedAt && s.status == r.status
                        && r.usedSeconds == RoundToSeconds(|UsableInstants(s, w)|)
                        && (forall t :: UsableAt(s, t, w.now) <==> s.startedAt <= t < r.endedAt)
  {
    var s := ListedSession(machines, all, w, r);
    ReportedTells(s, w);
  }

  /**
    A report lists its sessions newest first, only those of machines it has a row for, and for
    each row exactly as many as the row counts.
   */
  lemma ListAgreesWithRows(rows: seq<MachineUsage>, machines: seq<ReportedMachine>, all: seq<UsageSession>,
                           w: Window, collate: string -> int)
    requires IsSummary(rows, machines, all, w, collate)
    ensures var listed := ReportedFrom(machines, all, w);
            && (forall i, j :: 0 <= i < j < |listed| ==> listed[i].startedAt >= listed[j].startedAt)
            && (forall s :: s in listed ==> exists row :: row in rows && row.machineId == s.machineId)
            && (forall row :: row in rows ==> row.sessionCount == ListedOf(listed, row.machineId))
  {
    var before := (a: UsageSession, b: UsageSession) => a.startedAt >= b.startedAt;
    var positive := Positive(all, w);
    var newest := Sorted(positive, before);
    SortedSorts(positive, before);
    assert forall i, j :: 0 <= i < j < |newest| ==> before(newest[i], newest[j]);
    FilterKeepsOrder(ReportSessions(all, w), Known(machines));
    forall s | s in ReportedFrom(machines, all, w)
      ensures exists row :: row in rows && row.machineId == s.machineId
    {
      var machine :| machine in machines && machine.id == s.machineId;
      var i :| 0 <= i < |rows| && rows[i].machineId == machine.id;
      assert rows[i] in rows;
    }
    forall row | row in rows
      ensures row.sessionCount == ListedOf(ReportedFrom(machines, all, w), row.machineId)
    {
      DescribedIsListed(machines, row.machineId);
      PositiveCounts(all, row.machineId, w);
      TotalsIgnoreOrder(newest, positive, row.machineId, w);
      forall s | s in newest ensures Clipped(s, w) > 0 {
        assert s in multiset(positive);
      }
      ListedCounts(newest, Known(machines), row.machineId, w);
    }
  }

  // Rounding.

  function Rounded(xs: seq<nat>): (r: seq<nat>)
    ensures |r| == |xs|
  {
    seq(|xs|, i requires 0 <= i < |xs| => RoundToSeconds(xs[i]))
  }

  lemma {:induction false} RoundedSum(xs: seq<nat>)
    ensures -500 * |xs| <= 1000 * Sum(Rounded(xs)) - Sum(xs) <= 500 * |xs|
  {
    if xs != [] {
      RoundedSum(xs[..|xs| - 1]);
      assert Rounded(xs)[..|xs| - 1] == Rounded(xs[..|xs| - 1]);
    }
  }

  /**
    Rounding every part and rounding the whole differ by at most one second for every two parts,
    whether the parts are days or sessions.
   */
  lemma {:induction false} RoundingDrift(xs: seq<nat>)
    ensures -(|xs| as int) <= 2 * (Sum(Rounded(xs)) - RoundToSeconds(Sum(xs))) <= |xs|
  {
    RoundedSum(xs);
    RoundedSumStrict(xs);
  }

  /** Halves round up, so the lower bound is never quite reached. */
  lemma {:induction false} RoundedSumStrict(xs: seq<nat>)
    ensures xs != [] ==> -500 * |xs| < 1000 * Sum(Rounded(xs)) - Sum(xs)
  {
    if xs != [] {
      RoundedSumStrict(xs[..|xs| - 1]);
      assert Rounded(xs)[..|xs| - 1] == Rounded(xs[..|xs| - 1]);
      if |xs| == 1 {
        assert Sum(Rounded(xs)) == Sum(Rounded(xs)[..0]) + RoundToSeconds(xs[0]);
      }
    }
  }

  /** What rounding leaves over, part by part: from -500 to 499 milliseconds each. */
  function Leftover(xs: seq<nat>): int {
    if xs == [] then 0
    else
      var last: int := xs[|xs| - 1];
      Leftover(xs[..|xs| - 1]) + (if last % 1000 < 500 then last % 1000 else last % 1000 - 1000)
  }

  lemma {:induction false} LeftoverIsTheRest(xs: seq<nat>)
    ensures Leftover(xs) == Sum(xs) - 1000 * Sum(Rounded(xs))
  {
    if xs != [] {
      var n := |xs| - 1;
      LeftoverIsTheRest(xs[..n]);
      assert Rounded(xs)[..n] == Rounded(xs[..n]);
    }
  }

  /** Rounded rows add up to their rounded total if and only if what rounding left over cancels out. */
  lemma {:induction false} RowsAddUpIff(xs: seq<nat>)
    ensures Sum(Rounded(xs)) == RoundToSeconds(Sum(xs)) <==> -500 <= Leftover(xs) < 500
  {
    LeftoverIsTheRest(xs);
  }

  // Rounding in a report: its rows, its sessions, its days.

  function ListedSeconds(sessions: seq<ReportedSession>, m: MachineId): nat {
    if sessions == [] then 0
    else
      var last := sessions[|sessions| - 1];
      ListedSeconds(sessions[..|sessions| - 1], m) + if last.machineId == m then last.usedSeconds else 0
  }

  /** The exact time of each session of `m`, in order. */
  function SharesOf(sessions: seq<UsageSession>, m: MachineId, w: Window): seq<nat> {
    if sessions == [] then []
    else
      var last := sessions[|sessions| - 1];
      SharesOf(sessions[..|sessions| - 1], m, w) + if last.machineId == m then [Clipped(last, w)] else []
  }

  lemma {:induction false} SumAppends(xs: seq<nat>, x: nat)
    ensures Sum(xs + [x]) == Sum(xs) + x
    ensures Sum(Rounded(xs + [x])) == Sum(Rounded(xs)) + RoundToSeconds(x)
  {
    assert (xs + [x])[..|xs|] == xs;
    assert Rounded(xs + [x])[..|xs|] == Rounded(xs);
  }

  lemma {:induction false} SharesSum(sessions: seq<UsageSession>, m: MachineId, w: Window)
    ensures Sum(SharesOf(sessions, m, w)) == TotalMs(sessions, m, w)
  {
    if sessions != [] {
      var n := |sessions| - 1;
      var earlier := SharesOf(sessions[..n], m, w);
      SharesSum(sessions[..n], m, w);
      if sessions[n].machineId == m {
        SumAppends(earlier, Clipped(sessions[n], w));
      } else {
        assert earlier + [] == earlier;
      }
    }
  }

  lemma {:induction false} SharesCount(sessions: seq<UsageSession>, m: MachineId, w: Window)
    requires forall s :: s in sessions ==> Clipped(s, w) > 0
    ensures |SharesOf(sessions, m, w)| == Contributing(sessions, m, w)
  {
    if sessions != [] {
      var n := |sessions| - 1;
      SharesCount(sessions[..n], m, w);
      assert Clipped(sessions[n], w) > 0;
    }
  }

  lemma {:induction false} ListedSecondsStep(reported: seq<ReportedSession>, known: set<MachineId>, m: MachineId)
    requires reported != [] && m in known
    ensures var n := |reported| - 1;
            ListedSeconds(OfMachines(reported, known), m) ==
            ListedSeconds(OfMachines(reported[..n], known), m)
            + if reported[n].machineId == m then reported[n].usedSeconds else 0
  {
    var n := |reported| - 1;
    var earlier := OfMachines(reported[..n], known);
    if reported[n].machineId in known {
      assert (earlier + [reported[n]])[..|earlier|] == earlier;
    } else {
      assert earlier + [] == earlier;
    }
  }

  lemma {:induction false} ListedAreShares(sessions: seq<UsageSession>, known: set<MachineId>, m: MachineId, w: Window)
    requires m in known
    ensures ListedSeconds(OfMachines(AllReported(sessions, w), known), m) == Sum(Rounded(SharesOf(sessions, m, w)))
  {
    if sessions != [] {
      var n := |sessions| - 1;
      var earlier := SharesOf(sessions[..n], m, w);
      ListedAreShares(sessions[..n], known, m, w);
      assert AllReported(sessions, w)[..n] == AllReported(sessions[..n], w);
      ListedSecondsStep(AllReported(sessions, w), known, m);
      if sessions[n].machineId == m {
        SumAppends(earlier, Clipped(sessions[n], w));
      } else {
        assert earlier + [] == earlier;
      }
    }
  }

  /** The exact times behind the listed sessions of `m`, in the order of the list. */
  function ListedShares(all: seq<UsageSession>, m: MachineId, w: Window): seq<nat> {
    SharesOf(Sorted(Positive(all, w), (a: UsageSession, b: UsageSession) => a.startedAt >= b.startedAt), m, w)
  }

  /** A row rounds the sum of the times that its listed sessions round one by one. */
  lemma RowAndList(row: MachineUsage, rows: seq<MachineUsage>, machines: seq<ReportedMachine>, all: seq<UsageSession>,
                   w: Window, collate: string -> int)
    requires IsSummary(rows, machines, all, w, collate) && row in rows
    ensures var shares := ListedShares(all, row.machineId, w);
            && |shares| == row.sessionCount
            && row.usedSeconds == RoundToSeconds(Sum(shares))
            && ListedSeconds(ReportedFrom(machines, all, w), row.machineId) == Sum(Rounded(shares))
  {
    var before := (a: UsageSession, b: UsageSession) => a.startedAt >= b.startedAt;
    var m, positive := row.machineId, Positive(all, w);
    var newest := Sorted(positive, before);
    SortedSorts(positive, before);
    DescribedIsListed(machines, m);
    PositiveCounts(all, m, w);
    PositiveTotal(all, m, w);
    TotalsIgnoreOrder(newest, positive, m, w);
    forall s | s in newest ensures Clipped(s, w) > 0 {
      assert s in multiset(positive);
    }
    SharesSum(newest, m, w);
    SharesCount(newest, m, w);
    ListedAreShares(newest, Known(machines), m, w);
  }

  lemma {:induction false} PositiveTotal(sessions: seq<UsageSession>, m: MachineId, w: Window)
    ensures TotalMs(Positive(sessions, w), m, w) == TotalMs(sessions, m, w)
  {
    if sessions != [] {
      var n := |sessions| - 1;
      PositiveTotal(sessions[..n], m, w);
      TotalsConcat(Positive(sessions[..n], w), if Clipped(sessions[n], w) > 0 then [sessions[n]] else [], m, w);
    }
  }

  /**
    In every report, the listed sessions of a machine differ from its row by at most one second
    for every two of them.
   */
  lemma RowDrift(row: MachineUsage, rows: seq<MachineUsage>, machines: seq<ReportedMachine>, all: seq<UsageSession>,
                 w: Window, collate: string -> int)
    requires IsSummary(rows, machines, all, w, collate) && row in rows
    ensures var listed := ListedSeconds(ReportedFrom(machines, all, w), row.machineId);
            -(row.sessionCount as int) <= 2 * (listed - row.usedSeconds) <= row.sessionCount
  {
    RowAndList(row, rows, machines, all, w, collate);
    RoundingDrift(ListedShares(all, row.machineId, w));
  }

  /** They add up to the row if and only if what rounding leaves of their times cancels out. */
  lemma RowAddsUpIff(row: MachineUsage, rows: seq<MachineUsage>, machines: seq<ReportedMachine>, all: seq<UsageSession>,
                     w: Window, collate: string -> int)
    requires IsSummary(rows, machines, all, w, collate) && row in rows
    ensures ListedSeconds(ReportedFrom(machines, all, w), row.machineId) == row.usedSeconds
            <==> -500 <= Leftover(ListedShares(all, row.machineId, w)) < 500
  {
    RowAndList(row, rows, machines, all, w, collate);
    RowsAddUpIff(ListedShares(all, row.machineId, w));
  }

  /** The exact time of each row's machine. */
  function RowTimes(rows: seq<MachineUsage>, all: seq<UsageSession>, w: Window): (times: seq<nat>)
    ensures |times| == |rows|
  {
    seq(|rows|, i requires 0 <= i < |rows| => TotalMs(all, rows[i].machineId, w))
  }

  lemma {:induction false} TotalsRounded(rows: seq<MachineUsage>, all: seq<UsageSession>, w: Window)
    requires forall row :: row in rows ==> row.usedSeconds == RoundToSeconds(TotalMs(all, row.machineId, w))
    ensures SumSeconds(rows) == Sum(Rounded(RowTimes(rows, all, w)))
    ensures SumTotals(Ids(rows), all, w) == Sum(RowTimes(rows, all, w))
  {
    if rows != [] {
      var n := |rows| - 1;
      TotalsRounded(rows[..n], all, w);
      assert rows[n] in rows;
      assert RowTimes(rows, all, w)[..n] == RowTimes(rows[..n], all, w);
      assert Rounded(RowTimes(rows, all, w))[..n] == Rounded(RowTimes(rows, all, w)[..n]);
      assert Ids(rows)[..n] == Ids(rows[..n]);
    }
  }

  /** A report's total is the time of its machines, off by at most half a second for each. */
  lemma {:induction false} TotalDrift(rows: seq<MachineUsage>, machines: seq<ReportedMachine>, all: seq<UsageSession>,
                                      w: Window, collate: string -> int)
    requires IsSummary(rows, machines, all, w, collate)
    ensures -(|rows| as int) <= 2 * (SumSeconds(rows) - RoundToSeconds(SumTotals(Ids(rows), all, w))) <= |rows|
  {
    TotalsRounded(rows, all, w);
    RoundingDrift(RowTimes(rows, all, w));
  }

  /** The days of a report differ from its rounded time by at most one second for every two days. */
  lemma {:induction false} DayDrift(sessions: seq<ReportedSession>, bounds: seq<Millis>, days: seq<nat>)
    requires Midnights(bounds) && |days| == |bounds| - 1
    requires forall i :: 0 <= i < |days| ==> days[i] == RoundToSeconds(BucketMs(sessions, bounds[i], bounds[i + 1]))
    ensures var total := RoundToSeconds(BucketMs(sessions, bounds[0], bounds[|bounds| - 1]));
            -(|days| as int) <= 2 * (Sum(days) - total) <= |days|
    ensures Sum(days) == RoundToSeconds(BucketMs(sessions, bounds[0], bounds[|bounds| - 1]))
            <==> -500 <= Leftover(DaysMs(sessions, bounds)) < 500
  {
    DaysTileTheWindow(sessions, bounds);
    assert days == Rounded(DaysMs(sessions, bounds));
    RoundingDrift(DaysMs(sessions, bounds));
    RowsAddUpIff(DaysMs(sessions, bounds));
  }

  /** A session of one minute that the operator ends after half a second. */
  function HalfSecond(m: MachineId, startedAt: Millis): UsageSession {
    UsageSession(m, startedAt, startedAt + 60_000, Some(startedAt + 500), SessionStatus.Ended)
  }

  /** A session of half a second at the start of every second. */
  function HalfSeconds(m: MachineId, n: nat): (sessions: seq<UsageSession>)
    ensures |sessions| == n
  {
    seq(n, i requires 0 <= i < n => HalfSecond(m, 1000 * i))
  }

  lemma {:induction false} HalfSecondsCount(m: MachineId, n: nat, w: Window)
    requires w.from <= 0 && 1000 * n <= w.to
    ensures Contributing(HalfSeconds(m, n), m, w) == n
    ensures forall s :: s in HalfSeconds(m, n) ==> s.machineId == m && Clipped(s, w) == 500
  {
    if n > 0 {
      HalfSecondsCount(m, n - 1, w);
      assert HalfSeconds(m, n)[..n - 1] == HalfSeconds(m, n - 1);
    }
  }

  lemma {:induction false} SharesAreHalves(sessions: seq<UsageSession>, m: MachineId, w: Window)
    requires forall s :: s in sessions ==> s.machineId == m && Clipped(s, w) == 500
    ensures SharesOf(sessions, m, w) == Halves(|sessions|)
  {
    if sessions != [] {
      var n := |sessions| - 1;
      SharesAreHalves(sessions[..n], m, w);
      assert sessions[n] in sessions;
    }
  }

  lemma ListedHalves(m: MachineId, all: seq<UsageSession>, w: Window)
    requires forall s :: s in all ==> s.machineId == m && Clipped(s, w) == 500
    ensures exists n :: ListedShares(all, m, w) == Halves(n)
  {
    var before := (a: UsageSession, b: UsageSession) => a.startedAt >= b.startedAt;
    var newest := Sorted(Positive(all, w), before);
    SortedSorts(Positive(all, w), before);
    forall s | s in newest ensures s.machineId == m && Clipped(s, w) == 500 {
      assert s in multiset(Positive(all, w));
      PositiveAre(all, w, s);
    }
    SharesAreHalves(newest, m, w);
  }

  /**
    The drift does occur in reports: the list of a machine with `n` sessions of half a second
    each adds up to `n` seconds, and its row says half of that.
   */
  lemma ReportDriftIsReached(machine: ReportedMachine, n: nat, row: MachineUsage, rows: seq<MachineUsage>,
                             collate: string -> int)
    requires IsSummary(rows, [machine], HalfSeconds(machine.id, n), Window(0, 1000 * n, 1000 * n), collate)
    requires row in rows && row.machineId == machine.id
    ensures row.sessionCount == n && row.usedSeconds == (n + 1) / 2
    ensures var listed := ReportedFrom([machine], HalfSeconds(machine.id, n), Window(0, 1000 * n, 1000 * n));
            ListedSeconds(listed, machine.id) == n
  {
    var all, w := HalfSeconds(machine.id, n), Window(0, 1000 * n, 1000 * n);
    HalfSecondsCount(machine.id, n, w);
    RowAndList(row, rows, [machine], all, w, collate);
    ListedHalves(machine.id, all, w);
    HalvesSum(n);
  }

  function Halves(n: nat): seq<nat> {
    seq(n, i => 500)
  }

  lemma {:induction false} HalvesSum(n: nat)
    ensures Sum(Halves(n)) == 500 * n && Sum(Rounded(Halves(n))) == n
  {
    if n > 0 {
      HalvesSum(n - 1);
      assert Halves(n)[..n - 1] == Halves(n - 1);
      assert Rounded(Halves(n))[..n - 1] == Rounded(Halves(n - 1));
    }
  }
}

/** The sessions of `Reports.ReportDriftIsReached` are what the service writes. */
module DriftingRuns {
  import opened Basics
  import opened Session
  import opened Usage
  import opened Sessions
  import opened SessionRuns
  import opened Reports

  /** One minute is granted at the start of every second, and ended half a second later. */
  function HalfSecondCalls(m: MachineId, n: nat): (calls: seq<Call>)
    ensures |calls| == 2 * n + 1
  {
    if n == 0 then [Call(AddMachine(m), -1)]
    else
      HalfSecondCalls(m, n - 1)
      + [Call(Start(m, 1), 1000 * (n - 1)), Call(End(n - 1), 1000 * (n - 1) + 500)]
  }

  function HalfSecondRow(m: MachineId, i: nat): Row {
    Row(i, HalfSecond(m, 1000 * i), 1000 * i + 500)
  }

  function HalfSecondTable(m: MachineId, n: nat): (t: Table)
    ensures |t.rows| == n
  {
    Table(seq(n, i requires 0 <= i < n => HalfSecondRow(m, i)), {m}, n)
  }

  lemma StartedNext(m: MachineId, n: nat)
    ensures Apply(HalfSecondTable(m, n), Start(m, 1), 1000 * n) ==
            Table(HalfSecondTable(m, n).rows + [Started(m, n, 1, 1000 * n)], {m}, n + 1)
  {
    var rows := HalfSecondTable(m, n).rows;
    assert Swept(rows, Some(m), 1000 * n) == rows;
  }

  lemma EndedNext(m: MachineId, n: nat)
    ensures Apply(Table(HalfSecondTable(m, n).rows + [Started(m, n, 1, 1000 * n)], {m}, n + 1), End(n), 1000 * n + 500)
            == HalfSecondTable(m, n + 1)
  {
    var rows := HalfSecondTable(m, n).rows + [Started(m, n, 1, 1000 * n)];
    assert Find(rows, n) == n;
    assert rows[n := Finished(rows[n], 1000 * n + 500)] == HalfSecondTable(m, n + 1).rows;
  }

  lemma {:induction false} TwoCalls(t: Table, calls: seq<Call>, a: Call, b: Call)
    ensures After(t, calls + [a, b]) == Apply(Apply(After(t, calls), a.op, a.now), b.op, b.now)
  {
    var longer := calls + [a, b];
    assert longer[..|calls| + 1] == calls + [a];
    assert (calls + [a])[..|calls|] == calls;
  }

  lemma {:induction false} CallsInOrder(m: MachineId, n: nat)
    ensures Chronological(HalfSecondCalls(m, n), -1)
    ensures HalfSecondCalls(m, n)[2 * n].now <= 1000 * n - 500 || n == 0
  {
    if n > 0 {
      CallsInOrder(m, n - 1);
    }
  }

  /** For every `n` there is a run of the service whose sessions are exactly those. */
  lemma {:induction false} HalfSecondsHappen(m: MachineId, n: nat)
    ensures Chronological(HalfSecondCalls(m, n), -1)
    ensures UsagesOf(After(Table([], {}, 0), HalfSecondCalls(m, n)).rows) == HalfSeconds(m, n)
  {
    CallsInOrder(m, n);
    TableAfter(m, n);
  }

  lemma TwoMoreCalls(m: MachineId, n: nat)
    ensures var started := Apply(HalfSecondTable(m, n), Start(m, 1), 1000 * n);
            Apply(started, End(n), 1000 * n + 500) == HalfSecondTable(m, n + 1)
  {
    StartedNext(m, n);
    EndedNext(m, n);
  }

  lemma {:induction false} FirstCall(m: MachineId)
    ensures After(Table([], {}, 0), HalfSecondCalls(m, 0)) == HalfSecondTable(m, 0)
  {
    assert HalfSecondCalls(m, 0)[..0] == [];
  }

  lemma {:induction false} GrowsTo(m: MachineId, n: nat, calls: seq<Call>)
    requires After(Table([], {}, 0), calls) == HalfSecondTable(m, n)
    ensures After(Table([], {}, 0), calls + [Call(Start(m, 1), 1000 * n), Call(End(n), 1000 * n + 500)]) ==
            HalfSecondTable(m, n + 1)
  {
    TwoCalls(Table([], {}, 0), calls, Call(Start(m, 1), 1000 * n), Call(End(n), 1000 * n + 500));
    TwoMoreCalls(m, n);
  }

  lemma {:induction false} TableAfter(m: MachineId, n: nat)
    ensures After(Table([], {}, 0), HalfSecondCalls(m, n)) == HalfSecondTable(m, n)
  {
    if n == 0 {
      FirstCall(m);
    } else {
      TableAfter(m, n - 1);
      GrowsTo(m, n - 1, HalfSecondCalls(m, n - 1));
    }
  }
}
