/**
  What the clock's bound means for the person at the computer: how long one deadline can be
  stretched by an agent that is crashed, restarted and shown any OS time at all.
 */
module EnforcedTime {
  import opened Basics
  import opened Clock
  import opened ClockBound
  import opened Session
  import opened Storage
  import opened RunLoop
  import Enforcement

  /** What a step of the computer is to its clock. */
  function EventsOf(c: Enforcement.Computer, a: Enforcement.Action): seq<ClockEvent>
    requires Enforcement.Enabled(c, a)
  {
    match a
    case Boot(mono) => [Restart(mono)]
    case Shutdown => [Saved]
    case PersistAccept => [Saved]
    case Tick(os, mono) => if c.process.value.decommissioned then [] else [ClockEvent.Tick(os, mono)]
    case Handle(event, mono) =>
      if c.process.value.decommissioned then []
      else (match event
            case ServerTime(time) => [ClockEvent.ServerTime(time, mono)]
            case SessionState(_, time) =>
              if Newer(time, c.process.value.state.lastAppliedAt) then [Applied(time, mono)] else []
            case Decommission => [])
    case _ => []
  }

  /** The clock's events from step `i` on. */
  function Trace(actions: seq<Enforcement.Action>, i: nat): seq<ClockEvent>
    requires i <= |actions| && Enforcement.Reached(actions).Some?
  {
    if |actions| == i then []
    else
      var n := |actions| - 1;
      Trace(actions[..n], i) + EventsOf(Enforcement.Reached(actions[..n]).value, actions[n])
  }

  /** The computer's clock, in memory and on disk, is the watched one. */
  predicate Watched(c: Enforcement.Computer, w: Watch) {
    && c.disk.Some? && c.disk.value.trustedHighWaterMark == w.saved.mark
    && (c.process.Some? ==> c.process.value.clock == w.guard)
  }

  lemma StepWatched(c: Enforcement.Computer, a: Enforcement.Action, w: Watch)
    requires Enforcement.Valid(c) && Enforcement.Enabled(c, a) && Watched(c, w)
    ensures var events := EventsOf(c, a);
            Watched(Enforcement.Apply(c, a), if events == [] then w else Observe(w, events[0]))
  {
  }

  lemma {:induction false} AfterConcat(w: Watch, events: seq<ClockEvent>, more: seq<ClockEvent>)
    requires |more| <= 1
    ensures After(w, events + more) == if more == [] then After(w, events) else Observe(After(w, events), more[0])
  {
    if more == [] {
      assert events + more == events;
    } else {
      assert (events + more)[..|events|] == events;
    }
  }

  lemma {:induction false} RunWatched(actions: seq<Enforcement.Action>, i: nat, w: Watch)
    requires i <= |actions| && Enforcement.Reached(actions).Some?
    requires Enforcement.Reached(actions[..i]).Some? && Watched(Enforcement.Reached(actions[..i]).value, w)
    ensures Watched(Enforcement.Reached(actions).value, After(w, Trace(actions, i)))
  {
    var n := |actions| - 1;
    if i == |actions| {
      assert actions[..i] == actions;
    } else {
      Enforcement.ReachedPrefix(actions, i);
      RunWatched(actions[..n], i, w);
      var c := Enforcement.Reached(actions[..n]).value;
      Enforcement.AlwaysValid(actions[..n]);
      StepWatched(c, actions[n], After(w, Trace(actions[..n], i)));
      AfterConcat(w, Trace(actions[..n], i), EventsOf(c, actions[n]));
    }
  }

  /**
    Take a computer whose clock showed `start` at running time `mono0`, saved, and let anything
    happen to it from then on: OS clocks set at will, messages, crashes, restarts, shutdowns. A
    tick that still does not lock comes before the session's remaining time plus the slack have
    been spent running. `D` bounds the gap from one tick to each later event before the next.
   */
  lemma {:induction false} DeadlineIsEnforced(actions: seq<Enforcement.Action>, i: nat, start: Millis, mono0: Millis,
                           os: Millis, mono: Millis, D: nat)
    requires i <= |actions| && Enforcement.Reached(actions).Some? && Enforcement.Reached(actions[..i]).Some?
    requires var c := Enforcement.Reached(actions[..i]).value;
             Watched(c, Begin(start, mono0)) && c.process.Some?
    requires D >= 1 && Spaced(Begin(start, mono0), Trace(actions, i) + [ClockEvent.Tick(os, mono)], D)
    requires var c := Enforcement.Reached(actions).value;
             Enforcement.Running(c, Selecting) && !c.process.value.decommissioned
             && DisableUsage !in Ticked(c.process.value, os, mono).calls
    ensures var session := Enforcement.Reached(actions).value.process.value.state.session;
            var w := After(Begin(start, mono0), Trace(actions, i) + [ClockEvent.Tick(os, mono)]);
            session.Some? && mono - mono0 < (session.value.expiresAt - start) + SlackOf(w, D)
  {
    var events := Trace(actions, i) + [ClockEvent.Tick(os, mono)];
    RunWatched(actions, i, Begin(start, mono0));
    AfterConcat(Begin(start, mono0), Trace(actions, i), [ClockEvent.Tick(os, mono)]);
    TrustedTimeBound(start, mono0, events, D);
  }

  // The bound is exact: histories of computers reach it.

  /** Managed, enrolled, and holding this session. */
  predicate Holds(state: AgentState, session: SessionSnapshot) {
    !state.decommissioned && state.credentials.Some? && state.session == Some(session)
  }

  /** An agent at work with this session ahead of its watched clock, in memory and on disk. */
  predicate InForce(c: Enforcement.Computer, w: Watch, session: SessionSnapshot) {
    && Watched(c, w) && Enforcement.Running(c, Selecting) && !c.process.value.decommissioned
    && Holds(c.process.value.state, session) && Holds(c.disk.value, session)
    && session.status.Active? && w.guard.mark < session.expiresAt
  }

  /** A session of whole minutes, last changed at `start`, that began no later than that. */
  function Granted(start: Millis, expiresAt: Millis): SessionSnapshot
    requires start < expiresAt
  {
    var minutes := (expiresAt - start + 59_999) / 60_000;
    SessionSnapshot("", expiresAt - 60_000 * minutes, expiresAt, SessionStatus.Active, start)
  }

  /** A computer is enrolled, boots, and is sent the session. */
  function Prologue(start: Millis, expiresAt: Millis): seq<Enforcement.Action>
    requires start < expiresAt
  {
    [Enforcement.Enroll(Credentials(0, 0), start - 1), Enforcement.Boot(0),
     Enforcement.Handle(SessionState(Some(Granted(start, expiresAt)), start), 0)]
  }

  lemma {:induction false} Further(actions: seq<Enforcement.Action>, a: Enforcement.Action, i: nat)
    requires i <= |actions| && Enforcement.Reached(actions).Some?
    requires Enforcement.Enabled(Enforcement.Reached(actions).value, a)
    ensures Enforcement.Reached(actions + [a]) == Some(Enforcement.Apply(Enforcement.Reached(actions).value, a))
    ensures Trace(actions + [a], i) == Trace(actions, i) + EventsOf(Enforcement.Reached(actions).value, a)
    ensures (actions + [a])[..i] == actions[..i]
  {
    assert (actions + [a])[..|actions|] == actions;
  }

  lemma PrologueReaches(start: Millis, expiresAt: Millis)
    requires start < expiresAt
    ensures Enforcement.Reached(Prologue(start, expiresAt)).Some?
    ensures InForce(Enforcement.Reached(Prologue(start, expiresAt)).value, Begin(start, 0), Granted(start, expiresAt))
  {
    var p := Prologue(start, expiresAt);
    Further([], p[0], 0);
    Further([p[0]], p[1], 0);
    Further([p[0], p[1]], p[2], 0);
    assert [] + [p[0]] == [p[0]] && [p[0]] + [p[1]] == [p[0], p[1]] && [p[0], p[1]] + [p[2]] == p;
  }

  lemma TickStaysInForce(c: Enforcement.Computer, w: Watch, os: Millis, mono: Millis, session: SessionSnapshot)
    requires InForce(c, w, session) && Observe(w, ClockEvent.Tick(os, mono)).guard.mark < session.expiresAt
    ensures InForce(Enforcement.Apply(c, Enforcement.Tick(os, mono)), Observe(w, ClockEvent.Tick(os, mono)), session)
  {
  }

  lemma TimeStaysInForce(c: Enforcement.Computer, w: Watch, time: Millis, mono: Millis, session: SessionSnapshot)
    requires InForce(c, w, session) && Observe(w, ClockEvent.ServerTime(time, mono)).guard.mark < session.expiresAt
    ensures InForce(Enforcement.Apply(c, Enforcement.Handle(RunLoop.ServerTime(time), mono)),
                    Observe(w, ClockEvent.ServerTime(time, mono)), session)
  {
  }

  lemma RestartStaysInForce(c: Enforcement.Computer, w: Watch, mono: Millis, session: SessionSnapshot)
    requires InForce(c, w, session) && Observe(w, Restart(mono)).guard.mark < session.expiresAt
    ensures var crashed := Enforcement.Apply(c, Enforcement.Crash);
            Enforcement.Enabled(crashed, Enforcement.Boot(mono))
            && InForce(Enforcement.Apply(crashed, Enforcement.Boot(mono)), Observe(w, Restart(mono)), session)
  {
  }

  /** The steps of a computer that are one plain event of its clock. */
  function StepsOf(e: ClockEvent): seq<Enforcement.Action>
    requires !e.Applied? && !e.Saved?
  {
    match e
    case Tick(os, mono) => [Enforcement.Tick(os, mono)]
    case ServerTime(time, mono) => [Enforcement.Handle(RunLoop.ServerTime(time), mono)]
    case Restart(mono) => [Enforcement.Crash, Enforcement.Boot(mono)]
  }

  lemma RealizeOne(actions: seq<Enforcement.Action>, i: nat, w: Watch, e: ClockEvent, session: SessionSnapshot)
    returns (longer: seq<Enforcement.Action>)
    requires i <= |actions| && Enforcement.Reached(actions).Some?
    requires InForce(Enforcement.Reached(actions).value, w, session)
    requires IsPlain(w, e) && Observe(w, e).guard.mark < session.expiresAt
    ensures longer == actions + StepsOf(e) && Enforcement.Reached(longer).Some?
    ensures Trace(longer, i) == Trace(actions, i) + [e]
    ensures InForce(Enforcement.Reached(longer).value, Observe(w, e), session)
  {
    var c := Enforcement.Reached(actions).value;
    match e
    case Tick(os, mono) =>
      TickStaysInForce(c, w, os, mono, session);
      Further(actions, Enforcement.Tick(os, mono), i);
      longer := actions + [Enforcement.Tick(os, mono)];
    case ServerTime(time, mono) =>
      TimeStaysInForce(c, w, time, mono, session);
      Further(actions, Enforcement.Handle(RunLoop.ServerTime(time), mono), i);
      longer := actions + [Enforcement.Handle(RunLoop.ServerTime(time), mono)];
    case Restart(mono) =>
      RestartStaysInForce(c, w, mono, session);
      longer := RealizeRestart(actions, i, mono);
  }

  lemma RealizeRestart(actions: seq<Enforcement.Action>, i: nat, mono: Millis) returns (longer: seq<Enforcement.Action>)
    requires i <= |actions| && Enforcement.Reached(actions).Some?
    requires var c := Enforcement.Reached(actions).value;
             c.process.Some? && c.disk.Some? && c.disk.value.credentials.Some?
    ensures longer == actions + StepsOf(Restart(mono))
    ensures var crashed := Enforcement.Apply(Enforcement.Reached(actions).value, Enforcement.Crash);
            Enforcement.Enabled(crashed, Enforcement.Boot(mono))
            && Enforcement.Reached(longer) == Some(Enforcement.Apply(crashed, Enforcement.Boot(mono)))
    ensures Trace(longer, i) == Trace(actions, i) + [Restart(mono)]
  {
    Further(actions, Enforcement.Crash, i);
    var crashed := actions + [Enforcement.Crash];
    assert Trace(crashed, i) == Trace(actions, i) + [];
    Further(crashed, Enforcement.Boot(mono), i);
    longer := crashed + [Enforcement.Boot(mono)];
    assert longer == actions + StepsOf(Restart(mono));
  }

  /** After `i` steps, the computer lived these events of its clock. */
  ghost predicate Lived(actions: seq<Enforcement.Action>, i: nat, w: Watch, events: seq<ClockEvent>,
                        session: SessionSnapshot) {
    && i <= |actions| && Enforcement.Reached(actions).Some? && Trace(actions, i) == events
    && InForce(Enforcement.Reached(actions).value, After(w, events), session)
  }

  lemma LivesOneMore(actions: seq<Enforcement.Action>, i: nat, w: Watch, events: seq<ClockEvent>, e: ClockEvent,
                     session: SessionSnapshot) returns (longer: seq<Enforcement.Action>)
    requires Lived(actions, i, w, events, session)
    requires IsPlain(After(w, events), e) && Observe(After(w, events), e).guard.mark < session.expiresAt
    ensures Lived(longer, i, w, events + [e], session) && longer[..i] == actions[..i]
  {
    longer := RealizeOne(actions, i, After(w, events), e, session);
    AfterConcat(w, events, [e]);
  }

  lemma {:induction false} Realize(actions: seq<Enforcement.Action>, w: Watch, events: seq<ClockEvent>,
                                   session: SessionSnapshot)
    returns (longer: seq<Enforcement.Action>)
    requires Lived(actions, |actions|, w, [], session)
    requires Plain(w, events) && After(w, events).guard.mark < session.expiresAt
    ensures Lived(longer, |actions|, w, events, session) && longer[..|actions|] == actions
  {
    if events == [] {
      longer := actions;
    } else {
      var n := |events| - 1;
      assert events[..n] + [events[n]] == events;
      var earlier := Realize(actions, w, events[..n], session);
      longer := LivesOneMore(earlier, |actions|, w, events[..n], events[n], session);
    }
  }

  /** What `DeadlineIsEnforced` is about: a tick that does not lock, after a spaced history. */
  ghost predicate StillAllowed(actions: seq<Enforcement.Action>, i: nat, start: Millis, os: Millis, mono: Millis,
                               D: nat) {
    && i <= |actions| && Enforcement.Reached(actions).Some? && Enforcement.Reached(actions[..i]).Some?
    && Watched(Enforcement.Reached(actions[..i]).value, Begin(start, 0))
    && Enforcement.Reached(actions[..i]).value.process.Some?
    && Spaced(Begin(start, 0), Trace(actions, i) + [ClockEvent.Tick(os, mono)], D)
    && var c := Enforcement.Reached(actions).value;
       Enforcement.Running(c, Selecting) && !c.process.value.decommissioned && c.process.value.state.session.Some?
       && DisableUsage !in Ticked(c.process.value, os, mono).calls
  }

  /** The history of the clock that ends in a tick, lived by a computer up to that tick. */
  lemma LivedUpTo(start: Millis, events: seq<ClockEvent>, os: Millis, mono: Millis, D: nat, expiresAt: Millis)
    returns (actions: seq<Enforcement.Action>)
    requires Plain(Begin(start, 0), events + [ClockEvent.Tick(os, mono)])
    requires Spaced(Begin(start, 0), events + [ClockEvent.Tick(os, mono)], D)
    requires start < expiresAt && After(Begin(start, 0), events + [ClockEvent.Tick(os, mono)]).guard.mark < expiresAt
    ensures StillAllowed(actions, 3, start, os, mono, D) && Trace(actions, 3) == events
    ensures Enforcement.Reached(actions).value.process.value.state.session == Some(Granted(start, expiresAt))
  {
    assert (events + [ClockEvent.Tick(os, mono)])[..|events|] == events;
    PrologueReaches(start, expiresAt);
    var prologue := Prologue(start, expiresAt);
    assert After(Begin(start, 0), []) == Begin(start, 0) && Trace(prologue, 3) == [];
    actions := Realize(prologue, Begin(start, 0), events, Granted(start, expiresAt));
  }

  /**
    No smaller bound holds: for every count of each kind of event some history has a tick that
    still does not lock when running time is one millisecond short of the bound.
   */
  lemma DeadlineBoundIsExact(start: Millis, D: nat, k: nat, r: nat, n: nat)
    returns (actions: seq<Enforcement.Action>, os: Millis, mono: Millis)
    requires D >= 1
    ensures StillAllowed(actions, 3, start, os, mono, D)
    ensures var w := After(Begin(start, 0), Trace(actions, 3) + [ClockEvent.Tick(os, mono)]);
            var expiresAt := Enforcement.Reached(actions).value.process.value.state.session.value.expiresAt;
            && w.backSteps == k && w.resyncs == r && w.restarts == n
            && mono == (expiresAt - start) + SlackOf(w, D) - 1
  {
    var all := SlackIsReached(start, D, k, r, n);
    var m := |all| - 1;
    var events := all[..m];
    os, mono := all[m].os, all[m].mono;
    assert events + [ClockEvent.Tick(os, mono)] == all;
    RisesFromStart(Begin(start, 0), all);
    actions := LivedUpTo(start, events, os, mono, D, After(Begin(start, 0), all).guard.mark + 1);
  }

  lemma {:induction false} RisesFromStart(w: Watch, events: seq<ClockEvent>)
    requires Plain(w, events)
    ensures w.guard.mark <= After(w, events).guard.mark
  {
    if events != [] {
      RisesFromStart(w, events[..|events| - 1]);
    }
  }

  /** In particular, a clock set back two seconds keeps the last three seconds of a session open for four. */
  lemma RollbackExtendsASession() returns (actions: seq<Enforcement.Action>)
    ensures StillAllowed(actions, 3, 0, 2000, 4000, 2000)
    ensures Enforcement.Reached(actions).value.process.value.state.session == Some(Granted(0, 3000))
    ensures Trace(actions, 3) == [ClockEvent.Tick(2000, 2000)]
  {
    var first, second := ClockEvent.Tick(2000, 2000), ClockEvent.Tick(2000, 4000);
    Append(Begin(0, 0), [], first, 2000);
    assert [] + [first] == [first];
    Append(Begin(0, 0), [first], second, 2000);
    actions := LivedUpTo(0, [first], 2000, 4000, 2000, 3000);
  }
}
