/**
  What a process of the agent has done since it was started: the warnings it sent and what it
  told the platform, over whole histories of the computer.
 */
module AgentRuns {
  import opened Basics
  import opened Clock
  import opened Session
  import opened Storage
  import opened RunLoop
  import Enforcement
  import Warnings
  import WarningRuns

  /** The trusted time that a tick of this process reads. */
  function TrustedAt(c: Enforcement.Computer, os: Millis, mono: Millis): Millis
    requires c.process.Some?
  {
    Read(c.process.value.clock, os, mono).mark
  }

  /** A step that is a tick of a process that still enforces. */
  predicate IsManagedTick(c: Enforcement.Computer, a: Enforcement.Action) {
    a.Tick? && c.process.Some? && !c.process.value.decommissioned
  }

  /** The ticks of the running process: the session it held at each, and the trusted time. */
  function Ticks(actions: seq<Enforcement.Action>): seq<WarningRuns.Tick>
    requires Enforcement.Reached(actions).Some?
  {
    if actions == [] then []
    else
      var n := |actions| - 1;
      var c, a := Enforcement.Reached(actions[..n]).value, actions[n];
      if a.Boot? then []
      else if IsManagedTick(c, a) then
        Ticks(actions[..n]) + [WarningRuns.Tick(c.process.value.state.session, TrustedAt(c, a.os, a.mono))]
      else Ticks(actions[..n])
  }

  /** Everything that its ticks sent to the warnings thread. */
  function Sent(actions: seq<Enforcement.Action>): seq<Warnings.WarningEffect>
    requires Enforcement.Reached(actions).Some?
  {
    if actions == [] then []
    else
      var n := |actions| - 1;
      var c, a := Enforcement.Reached(actions[..n]).value, actions[n];
      if a.Boot? then []
      else if a.Tick? then Sent(actions[..n]) + Ticked(c.process.value, a.os, a.mono).effects
      else Sent(actions[..n])
  }

  /** Everything that its ticks asked of the platform. */
  function Calls(actions: seq<Enforcement.Action>): seq<OsCall>
    requires Enforcement.Reached(actions).Some?
  {
    if actions == [] then []
    else
      var n := |actions| - 1;
      var c, a := Enforcement.Reached(actions[..n]).value, actions[n];
      if a.Boot? then []
      else if a.Tick? then Calls(actions[..n]) + Ticked(c.process.value, a.os, a.mono).calls
      else Calls(actions[..n])
  }

  // Warnings.

  lemma {:induction false} OneMore(ticks: seq<WarningRuns.Tick>, t: WarningRuns.Tick)
    ensures WarningRuns.After(ticks + [t]) == WarningRuns.Ticked(WarningRuns.After(ticks), t).0
    ensures WarningRuns.Shown(ticks + [t]) ==
            WarningRuns.Shown(ticks) + WarningRuns.Ticked(WarningRuns.After(ticks), t).1
  {
    WarningRuns.OneMoreTick(ticks, t);
  }

  /** A tick hands the warnings the session it decided about, at the time it decided for. */
  lemma TickWarns(l: Loop, os: Millis, mono: Millis)
    requires l.stage.Selecting? && !l.decommissioned
    ensures var outcome := Ticked(l, os, mono);
            (outcome.loop.warnings, outcome.effects) ==
            WarningRuns.Ticked(l.warnings, WarningRuns.Tick(l.state.session, Read(l.clock, os, mono).mark))
  {
  }

  /** Nothing else touches the warnings, and a tick of an inert process sends nothing. */
  lemma OthersWarnNothing(c: Enforcement.Computer, a: Enforcement.Action)
    requires Enforcement.Enabled(c, a) && !a.Boot? && !IsManagedTick(c, a) && Enforcement.Apply(c, a).process.Some?
    ensures c.process.Some? && Enforcement.Apply(c, a).process.value.warnings == c.process.value.warnings
    ensures a.Tick? ==> Ticked(c.process.value, a.os, a.mono).effects == []
  {
  }

  /**
    The run loop's warnings are the warnings of its ticks. Whatever else happened to a process
    since it was started, its warning state is what those ticks alone lead to, and it has sent
    exactly what they show.
   */
  lemma {:induction false} WarningsFollowTicks(actions: seq<Enforcement.Action>)
    requires Enforcement.Reached(actions).Some? && Enforcement.Reached(actions).value.process.Some?
    ensures Enforcement.Reached(actions).value.process.value.warnings == WarningRuns.After(Ticks(actions))
    ensures Sent(actions) == WarningRuns.Shown(Ticks(actions))
  {
    var n := |actions| - 1;
    var c, a := Enforcement.Reached(actions[..n]).value, actions[n];
    if !a.Boot? {
      if !IsManagedTick(c, a) {
        OthersWarnNothing(c, a);
      }
      WarningsFollowTicks(actions[..n]);
      if IsManagedTick(c, a) {
        TickWarns(c.process.value, a.os, a.mono);
        OneMore(Ticks(actions[..n]), WarningRuns.Tick(c.process.value.state.session, TrustedAt(c, a.os, a.mono)));
      }
    }
  }

  /** So a countdown of the agent is a countdown of the warnings, after whatever it ticked before. */
  lemma {:induction false} AgentCountsDown(actions: seq<Enforcement.Action>, past: seq<WarningRuns.Tick>,
                                           session: SessionSnapshot, times: seq<Millis>)
    requires Enforcement.Reached(actions).Some? && Enforcement.Reached(actions).value.process.Some?
    requires Ticks(actions) == past + WarningRuns.TicksOf(session, times) && WarningRuns.Begins(session, times)
    requires WarningRuns.After(past).key != Some(Warnings.DeadlineKey(session.id, session.expiresAt))
    ensures Sent(actions) ==
            WarningRuns.Shown(past) + Warnings.Dismissal(WarningRuns.After(past))
            + WarningRuns.Countdown(session, times)
  {
    WarningsFollowTicks(actions);
    WarningRuns.CountdownFollows(past, session, times);
  }

  /** After a managed tick, a final warning is up only if that tick did not lock. */
  lemma {:induction false} FinalWarningMeansUnlocked(actions: seq<Enforcement.Action>, os: Millis, mono: Millis)
    requires Enforcement.Reached(actions).Some?
    requires Enforcement.Running(Enforcement.Reached(actions).value, Selecting)
    requires !Enforcement.Reached(actions).value.process.value.decommissioned
    ensures var outcome := Ticked(Enforcement.Reached(actions).value.process.value, os, mono);
            outcome.loop.warnings.finalVisible ==> DisableUsage !in outcome.calls
  {
    var c, a := Enforcement.Reached(actions).value, Enforcement.Tick(os, mono);
    var longer := actions + [a];
    assert longer[..|actions|] == actions;
    WarningsFollowTicks(longer);
    WarningRuns.VisibleImpliesAllowed(Ticks(longer));
  }

  // What the platform is told.

  /** The platform was last told to unlock. */
  predicate Unlocked(calls: seq<OsCall>) {
    calls != [] && calls[|calls| - 1] == EnableUsage
  }

  lemma {:induction false} BlockedIsRemembered(actions: seq<Enforcement.Action>)
    requires Enforcement.Reached(actions).Some? && Enforcement.Reached(actions).value.process.Some?
    ensures Enforcement.Reached(actions).value.process.value.currentlyBlocked <==> !Unlocked(Calls(actions))
  {
    var n := |actions| - 1;
    if !actions[n].Boot? {
      BlockedIsRemembered(actions[..n]);
    }
  }

  /**
    The platform is told every decision. A tick at which the messages heard do not allow use asks
    it to lock, every time; one at which they do asks it to unlock unless that is the last thing
    this process asked for, so the first of them after a start always does.
   */
  lemma {:induction false} PlatformIsTold(actions: seq<Enforcement.Action>)
    requires actions != [] && Enforcement.Reached(actions).Some?
    requires IsManagedTick(Enforcement.Reached(actions[..|actions| - 1]).value, actions[|actions| - 1])
    ensures var n := |actions| - 1;
            var c, a := Enforcement.Reached(actions[..n]).value, actions[n];
            var earlier := Calls(actions[..n]);
            var allowed := Enforcement.SpecAllowed(c.heard, c.base, TrustedAt(c, a.os, a.mono));
            && Calls(actions) == earlier + (if !allowed then [DisableUsage] else if Unlocked(earlier) then []
               else [EnableUsage])
            && (Unlocked(Calls(actions)) <==> allowed)
  {
    var n := |actions| - 1;
    var a := actions[n];
    BlockedIsRemembered(actions[..n]);
    Enforcement.EnforcementRefinesMessages(actions[..n], a.os, a.mono);
  }

  // What a tick leaves on disk.

  /** A managed tick saves its trusted time, and a session that ran out before it as expired. */
  lemma TickSaves(c: Enforcement.Computer, os: Millis, mono: Millis)
    requires Enforcement.Running(c, Selecting) && !c.process.value.decommissioned
    ensures var held, now := c.process.value.state, TrustedAt(c, os, mono);
            var disk := Enforcement.Apply(c, Enforcement.Tick(os, mono)).disk;
            && disk.Some? && disk.value.trustedHighWaterMark == now
            && disk.value == held.(trustedHighWaterMark := now, session := disk.value.session)
            && (held.session.Some? && held.session.value.status.Active? && held.session.value.expiresAt <= now ==>
                  disk.value.session == Some(held.session.value.(status := Expired)))
            && (!(held.session.Some? && held.session.value.status.Active? && held.session.value.expiresAt <= now) ==>
                  disk.value.session == held.session)
  {
  }

  /** Enrolment keeps the two clocks of an older state, and nothing else of it. */
  lemma EnrollmentIsACleanSlate(c: Enforcement.Computer, credentials: Credentials, now: Millis)
    requires Enforcement.Enabled(c, Enforcement.Enroll(credentials, now))
    ensures var disk := Enforcement.Apply(c, Enforcement.Enroll(credentials, now)).disk;
            disk == Some(if c.disk.Some?
                         then AgentState(Some(credentials), false, None, c.disk.value.lastAppliedAt,
                                         c.disk.value.trustedHighWaterMark)
                         else AgentState(Some(credentials), false, None, now, now))
  {
  }
}
