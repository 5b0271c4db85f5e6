/**
  The anti-rollback clock of the agent (agent/src/storage.rs, `ClockGuard`).

  `Guard` is the abstract value of the clock; `ClockGuard` is the object whose two fields the
  agent updates in place. Readings of the OS clock and of the monotonic clock are parameters.
 */
module Clock {
  import opened Basics

  datatype Guard = Guard(mark: Millis, anchor: Millis)

  /** `Instant::elapsed`: never negative. */
  function Elapsed(anchor: Millis, mono: Millis): nat {
    if mono > anchor then mono - anchor else 0
  }

  /** One trusted reading: believe an OS clock that is not behind the mark, extrapolate otherwise. */
  function Read(g: Guard, osNow: Millis, mono: Millis): Guard {
    if osNow >= g.mark then Guard(osNow, mono) else Guard(g.mark + Elapsed(g.anchor, mono), mono)
  }

  /** The server's clock may only pull the mark forward. */
  function Resynced(g: Guard, serverTime: Millis, mono: Millis): Guard {
    if serverTime > g.mark then Guard(serverTime, mono) else g
  }

  class ClockGuard {
    var highWaterMark: Millis
    var anchor: Millis

    ghost function View(): Guard
      reads this
    {
      Guard(highWaterMark, anchor)
    }

    constructor (persistedHighWaterMark: Millis, mono: Millis)
      ensures View() == Guard(persistedHighWaterMark, mono)
    {
      highWaterMark := persistedHighWaterMark;
      anchor := mono;
    }

    method Now(osNow: Millis, mono: Millis) returns (trusted: Millis)
      modifies this
      ensures View() == Read(old(View()), osNow, mono)
      ensures trusted == highWaterMark >= old(highWaterMark)
      ensures trusted >= osNow || trusted == old(highWaterMark) + Elapsed(old(anchor), mono)
    {
      if osNow >= highWaterMark {
        trusted := osNow;
      } else {
        trusted := highWaterMark + Elapsed(anchor, mono);
      }
      highWaterMark := trusted;
      anchor := mono;
    }

    method ResyncFromServer(serverTime: Millis, mono: Millis)
      modifies this
      ensures View() == Resynced(old(View()), serverTime, mono)
      ensures highWaterMark == Max(old(highWaterMark), serverTime)
    {
      if serverTime > highWaterMark {
        highWaterMark := serverTime;
        anchor := mono;
      }
    }
  }
}

/**
  How much running time the guard can lose, whatever the OS clock shows.

  `Watch` follows one state file through any number of agent processes. Monotonic readings lie
  on one axis of running time (time spent with no process alive is not on it). `backSteps`,
  `resyncs` and `restarts` count the only events that can cost time.
 */
module ClockBound {
  import opened Basics
  import opened Clock

  datatype ClockEvent =
    | Tick(os: Millis, mono: Millis)          // a trusted reading, then a save
    | ServerTime(time: Millis, mono: Millis)  // heartbeat answer: resync, no save
    | Applied(time: Millis, mono: Millis)     // accepted session message: resync, then a save
    | Restart(mono: Millis)                   // the process dies and a new one loads the file
    | Saved                                   // a save alone, as on a clean shutdown

  datatype Watch = Watch(
    guard: Guard,
    saved: Guard,               // the saved mark, and the anchor it was saved under
    time: Millis,               // running time of the last event
    tickAt: Millis,             // running time of the last tick (or process start)
    offset: Option<Millis>,     // OS clock minus running time, as last read by this process
    backSteps: nat,
    resyncs: nat,
    restarts: nat)

  function Begin(start: Millis, mono: Millis): Watch {
    Watch(Guard(start, mono), Guard(start, mono), mono, mono, None, 0, 0, 0)
  }

  /** The OS clock gained less than the running time since this process last read it. */
  predicate StepsBack(w: Watch, os: Millis, mono: Millis) {
    w.offset.Some? && os - mono < w.offset.value
  }

  function Resync(w: Watch, time: Millis, mono: Millis): Watch {
    w.(guard := Resynced(w.guard, time, mono),
       time := mono,
       resyncs := if time > w.guard.mark then w.resyncs + 1 else w.resyncs)
  }

  function Observe(w: Watch, e: ClockEvent): Watch {
    match e
    case Tick(os, mono) =>
      var g := Read(w.guard, os, mono);
      w.(guard := g, saved := g, time := mono, tickAt := mono, offset := Some(os - mono),
         backSteps := if StepsBack(w, os, mono) then w.backSteps + 1 else w.backSteps)
    case ServerTime(time, mono) => Resync(w, time, mono)
    case Applied(time, mono) => var w' := Resync(w, time, mono); w'.(saved := w'.guard)
    case Restart(mono) =>
      var g := Guard(w.saved.mark, mono);
      w.(guard := g, saved := g, time := mono, tickAt := mono, offset := None, restarts := w.restarts + 1)
    case Saved => w.(saved := w.guard)
  }

  function After(w: Watch, events: seq<ClockEvent>): Watch {
    if events == [] then w else Observe(After(w, events[..|events| - 1]), events[|events| - 1])
  }

  /** Running time does not go backward and no event comes more than `D` after the last tick. */
  predicate Timely(w: Watch, e: ClockEvent, D: nat) {
    e.Saved? || w.time <= e.mono <= w.tickAt + D
  }

  predicate Spaced(w: Watch, events: seq<ClockEvent>, D: nat) {
    events == [] ||
    (Spaced(w, events[..|events| - 1], D) && Timely(After(w, events[..|events| - 1]), events[|events| - 1], D))
  }

  /** The running time that `k` backward steps, `r` resyncs and `n` restarts can cost. */
  function Slack(D: nat, k: nat, r: nat, n: nat): int {
    D * (k + 2 * n + 1) + (D - 1) * r
  }

  function SlackOf(w: Watch, D: nat): int {
    Slack(D, w.backSteps, w.resyncs, w.restarts)
  }

  /** How far a guard lags behind a clock that showed `start` at running time `mono0`. */
  function Loss(start: Millis, mono0: Millis, g: Guard): int {
    start + (g.anchor - mono0) - g.mark
  }

  /**
    The potential argument. While `pending`, no reading has been believed since the last event
    that could desynchronise the guard, and one more `D` is held back for it; otherwise the last
    OS reading itself lies within the slack, so believing the OS clock again costs nothing new.
   */
  ghost predicate Accounted(start: Millis, mono0: Millis, w: Watch, D: nat, pending: bool) {
    && w.tickAt <= w.saved.anchor <= w.guard.anchor <= w.time
    && Loss(start, mono0, w.saved) <= SlackOf(w, D)
    && Loss(start, mono0, w.guard) <= SlackOf(w, D) - (if pending then D else 0)
    && (!pending ==> w.offset.Some? && (start - mono0) - w.offset.value <= SlackOf(w, D))
  }

  lemma SlackGrows(D: nat, k: nat, r: nat, n: nat)
    ensures Slack(D, k + 1, r, n) == Slack(D, k, r, n) + D
    ensures Slack(D, k, r + 1, n) == Slack(D, k, r, n) + D - 1
    ensures Slack(D, k, r, n + 1) == Slack(D, k, r, n) + 2 * D
  {
  }

  lemma TickAccounted(start: Millis, mono0: Millis, w: Watch, os: Millis, mono: Millis, D: nat, pending: bool)
    returns (pending': bool)
    requires Accounted(start, mono0, w, D, pending) && Timely(w, Tick(os, mono), D)
    ensures Accounted(start, mono0, Observe(w, Tick(os, mono)), D, pending')
  {
    SlackGrows(D, w.backSteps, w.resyncs, w.restarts);
    pending' := os < w.guard.mark && (pending || StepsBack(w, os, mono));
  }

  lemma ResyncAccounted(start: Millis, mono0: Millis, w: Watch, time: Millis, mono: Millis, D: nat, pending: bool)
    requires Accounted(start, mono0, w, D, pending) && w.time <= mono <= w.tickAt + D && D >= 1
    ensures Accounted(start, mono0, Resync(w, time, mono), D, pending)
  {
    SlackGrows(D, w.backSteps, w.resyncs, w.restarts);
  }

  lemma EventAccounted(start: Millis, mono0: Millis, w: Watch, e: ClockEvent, D: nat, pending: bool)
    returns (pending': bool)
    requires Accounted(start, mono0, w, D, pending) && Timely(w, e, D) && D >= 1
    ensures Accounted(start, mono0, Observe(w, e), D, pending')
  {
    pending' := pending;
    match e
    case Tick(os, mono) =>
      pending' := TickAccounted(start, mono0, w, os, mono, D, pending);
    case ServerTime(time, mono) =>
      ResyncAccounted(start, mono0, w, time, mono, D, pending);
    case Applied(time, mono) =>
      ResyncAccounted(start, mono0, w, time, mono, D, pending);
    case Restart(mono) =>
      SlackGrows(D, w.backSteps, w.resyncs, w.restarts);
      pending' := true;
    case Saved =>
  }

  lemma {:induction false} RunAccounted(start: Millis, mono0: Millis, events: seq<ClockEvent>, D: nat)
    returns (pending: bool)
    requires D >= 1 && Spaced(Begin(start, mono0), events, D)
    ensures Accounted(start, mono0, After(Begin(start, mono0), events), D, pending)
  {
    if events == [] {
      pending := true;
    } else {
      var n := |events| - 1;
      var before := RunAccounted(start, mono0, events[..n], D);
      pending := EventAccounted(start, mono0, After(Begin(start, mono0), events[..n]), events[n], D, before);
    }
  }

  /**
    Trusted time falls behind true running time by at most the slack: each backward step of the
    OS clock costs at most one `D`, each restart two, each resync less than one, over any run.
   */
  lemma {:induction false} TrustedTimeBound(start: Millis, mono0: Millis, events: seq<ClockEvent>, D: nat)
    requires D >= 1 && Spaced(Begin(start, mono0), events, D)
    ensures var w := After(Begin(start, mono0), events);
            w.guard.mark >= start + (w.guard.anchor - mono0) - SlackOf(w, D)
  {
    var _ := RunAccounted(start, mono0, events, D);
  }

  /**
    Hence the running time that one deadline can stay unexpired: whatever the user does to the OS
    clock, an agent that still finds `expiresAt` ahead of it has run for less than the time that
    was left plus the slack, and one more gap for the tick that has not happened yet.
   */
  lemma {:induction false} AllowedTimeBound(start: Millis, mono0: Millis, events: seq<ClockEvent>, D: nat,
                                            expiresAt: Millis)
    requires D >= 1 && Spaced(Begin(start, mono0), events, D)
    requires After(Begin(start, mono0), events).guard.mark < expiresAt
    ensures var w := After(Begin(start, mono0), events);
            w.time - mono0 < (expiresAt - start) + SlackOf(w, D) + D
  {
    var _ := RunAccounted(start, mono0, events, D);
    SpacedTime(Begin(start, mono0), events, D);
  }

  lemma {:induction false} SpacedTime(w: Watch, events: seq<ClockEvent>, D: nat)
    requires Spaced(w, events, D) && w.time <= w.tickAt + D
    ensures After(w, events).time <= After(w, events).tickAt + D
  {
    if events != [] {
      SpacedTime(w, events[..|events| - 1], D);
    }
  }

  // When the clock loses time, event by event.

  /**
    Setting the clock back, or a server behind the guard's own reckoning, costs time if and only
    if it lands in the gap since the last reading; a restart does if it forgets unsaved time.
   */
  predicate Costs(w: Watch, e: ClockEvent) {
    match e
    case Tick(os, mono) => w.guard.mark <= os < w.guard.mark + Elapsed(w.guard.anchor, mono)
    case ServerTime(time, mono) => w.guard.mark < time < w.guard.mark + Elapsed(w.guard.anchor, mono)
    case Applied(time, mono) => w.guard.mark < time < w.guard.mark + Elapsed(w.guard.anchor, mono)
    case Restart(mono) => w.saved.mark < w.guard.mark + Elapsed(w.guard.anchor, mono)
    case Saved => false
  }

  lemma LosesTimeIff(start: Millis, mono0: Millis, w: Watch, e: ClockEvent)
    requires w.guard.anchor <= w.time && (e.Saved? || w.time <= e.mono)
    ensures Loss(start, mono0, Observe(w, e).guard) > Loss(start, mono0, w.guard) <==> Costs(w, e)
  {
  }

  predicate Costless(w: Watch, events: seq<ClockEvent>) {
    events == [] ||
    (Costless(w, events[..|events| - 1]) && !Costs(After(w, events[..|events| - 1]), events[|events| - 1]))
  }

  /** A run in which nothing costs time loses none, however often the OS clock was set back. */
  lemma {:induction false} CostlessRunsLoseNothing(start: Millis, mono0: Millis, events: seq<ClockEvent>, D: nat)
    requires Spaced(Begin(start, mono0), events, D) && Costless(Begin(start, mono0), events)
    ensures var w := After(Begin(start, mono0), events);
            w.guard.anchor <= w.time && w.guard.mark >= start + (w.guard.anchor - mono0)
  {
    if events != [] {
      var n := |events| - 1;
      CostlessRunsLoseNothing(start, mono0, events[..n], D);
      LosesTimeIff(start, mono0, After(Begin(start, mono0), events[..n]), events[n]);
    }
  }

  /** Setting the clock back two seconds once makes a session two seconds longer. */
  lemma RollbackCanExtend() returns (events: seq<ClockEvent>)
    ensures Spaced(Begin(0, 0), events, 2000)
    ensures var w := After(Begin(0, 0), events);
            w.backSteps == 1 && w.resyncs == w.restarts == 0 && w.time == 4000 && w.guard.mark == 2000
  {
    var first, second := Tick(2000, 2000), Tick(2000, 4000);
    Append(Begin(0, 0), [], first, 2000);
    Append(Begin(0, 0), [] + [first], second, 2000);
    events := [] + [first] + [second];
  }

  // The bound is the exact worst case: some run of every kind reaches it.

  /** Readings, resyncs and restarts that never take the mark back. */
  predicate IsPlain(w: Watch, e: ClockEvent) {
    !e.Applied? && !e.Saved? && Observe(w, e).guard.mark >= w.guard.mark
  }

  predicate Plain(w: Watch, events: seq<ClockEvent>) {
    events == [] ||
    (Plain(w, events[..|events| - 1]) && IsPlain(After(w, events[..|events| - 1]), events[|events| - 1]))
  }

  /** Appending one event to a run. */
  lemma {:induction false} Append(w: Watch, events: seq<ClockEvent>, e: ClockEvent, D: nat)
    requires Spaced(w, events, D) && Timely(After(w, events), e, D)
    ensures Spaced(w, events + [e], D)
    ensures After(w, events + [e]) == Observe(After(w, events), e)
    ensures Plain(w, events) && IsPlain(After(w, events), e) ==> Plain(w, events + [e])
  {
    var longer := events + [e];
    assert longer[..|longer| - 1] == events;
  }

  /** A run that keeps the OS clock `low` and unbelieved while each of `r` resyncs wastes a gap. */
  lemma {:induction false} WastefulResyncs(start: Millis, D: nat, r: nat, low: Millis) returns (events: seq<ClockEvent>)
    requires D >= 1 && low < start - (D - 1) * r - D
    ensures Spaced(Begin(start, 0), events, D)
    ensures Plain(Begin(start, 0), events)
    ensures var w := After(Begin(start, 0), events);
            && w.backSteps == w.restarts == 0 && w.resyncs == r
            && w.guard.anchor == w.tickAt == w.time && w.saved == w.guard
            && Loss(start, 0, w.guard) == (D - 1) * r
            && (w.offset.Some? ==> w.offset.value == low)
  {
    if r == 0 {
      events := [];
    } else {
      assert (D - 1) * r == (D - 1) * (r - 1) + (D - 1);
      var earlier := WastefulResyncs(start, D, r - 1, low);
      var begin := Begin(start, 0);
      var w := After(begin, earlier);
      var t := w.time + D;
      var resync, tick := ServerTime(w.guard.mark + 1, t), Tick(low + t, t);
      Append(begin, earlier, resync, D);
      Append(begin, earlier + [resync], tick, D);
      events := earlier + [resync] + [tick];
    }
  }

  /** Every restart can waste the gap before it and the gap after it. */
  lemma {:induction false} WastefulRestarts(start: Millis, D: nat, r: nat, n: nat) returns (events: seq<ClockEvent>)
    requires D >= 1
    ensures Spaced(Begin(start, 0), events, D)
    ensures Plain(Begin(start, 0), events)
    ensures events != [] && events[|events| - 1].Tick?
    ensures var w := After(Begin(start, 0), events);
            && w.backSteps == 0 && w.resyncs == r && w.restarts == n
            && w.guard.anchor == w.tickAt == w.time && w.saved == w.guard
            && Loss(start, 0, w.guard) == Slack(D, 0, r, n)
            && w.offset == Some(w.guard.mark - w.time)
  {
    var begin := Begin(start, 0);
    if n == 0 {
      var low := start - (D - 1) * r - D - 1;
      var earlier := WastefulResyncs(start, D, r, low);
      var w := After(begin, earlier);
      var tick := Tick(w.guard.mark, w.time + D);
      Append(begin, earlier, tick, D);
      events := earlier + [tick];
    } else {
      var earlier := WastefulRestarts(start, D, r, n - 1);
      SlackGrows(D, 0, r, n - 1);
      var w := After(begin, earlier);
      var restart, tick := Restart(w.time + D), Tick(w.guard.mark, w.time + D + D);
      Append(begin, earlier, restart, D);
      Append(begin, earlier + [restart], tick, D);
      events := earlier + [restart] + [tick];
    }
  }

  /** For every count of each kind of event, some run loses exactly the slack. */
  lemma {:induction false} SlackIsReached(start: Millis, D: nat, k: nat, r: nat, n: nat)
    returns (events: seq<ClockEvent>)
    requires D >= 1
    ensures Spaced(Begin(start, 0), events, D)
    ensures Plain(Begin(start, 0), events)
    ensures events != [] && events[|events| - 1].Tick?
    ensures var w := After(Begin(start, 0), events);
            && w.backSteps == k && w.resyncs == r && w.restarts == n
            && w.guard.anchor == w.tickAt == w.time
            && w.guard.mark == start + w.guard.anchor - SlackOf(w, D)
            && w.offset == Some(w.guard.mark - w.time)
  {
    if k == 0 {
      events := WastefulRestarts(start, D, r, n);
    } else {
      var earlier := SlackIsReached(start, D, k - 1, r, n);
      SlackGrows(D, k - 1, r, n);
      var begin := Begin(start, 0);
      var w := After(begin, earlier);
      var tick := Tick(w.guard.mark, w.time + D);
      Append(begin, earlier, tick, D);
      events := earlier + [tick];
    }
  }
}
