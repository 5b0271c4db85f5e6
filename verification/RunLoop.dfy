/**
  The agent's run loop (agent/src/main.rs, `run` and `accept_decommission`).

  `Loop` is the abstract value of one running process and every branch of the loop is a function
  on it; `saved` says whether the branch ends by renaming the new state over the file. Accepting
  a decommission is three steps, because a crash between them matters.
 */
module RunLoop {
  import opened Basics
  import opened Clock
  import opened Session
  import opened Storage
  import Warnings

  datatype ServerEvent =
    | SessionState(session: Option<SessionSnapshot>, messageTime: Millis)
    | ServerTime(time: Millis)
    | Decommission

  datatype OsCall = DisableUsage | EnableUsage

  /** How far a decommission being accepted has got. */
  datatype Stage = Selecting | Accepting | Persisted

  datatype Loop = Loop(
    state: AgentState,
    clock: Guard,
    decommissioned: bool,
    currentlyBlocked: bool,
    warnings: Warnings.State,
    stage: Stage)

  datatype Outcome = Outcome(
    loop: Loop,
    saved: bool,
    calls: seq<OsCall>,
    effects: seq<Warnings.WarningEffect>)

  function Quiet(l: Loop, saved: bool): Outcome {
    Outcome(l, saved, [], [])
  }

  /** A process that has just loaded `state`. */
  function Booted(state: AgentState, mono: Millis): Loop {
    Loop(state, Guard(state.trustedHighWaterMark, mono), state.decommissioned, true, Warnings.INITIAL, Selecting)
  }

  function WithClock(l: Loop, clock: Guard): Loop {
    l.(clock := clock, state := l.state.(trustedHighWaterMark := clock.mark))
  }

  /** The events branch of the loop. */
  function Handled(l: Loop, event: ServerEvent, mono: Millis): Outcome
    requires l.stage.Selecting?
  {
    match event
    case Decommission =>
      if l.decommissioned then Quiet(l, false)
      else Quiet(l.(state := l.state.(decommissioned := true, session := None), stage := Accepting), false)
    case SessionState(session, messageTime) =>
      if l.decommissioned || !Newer(messageTime, l.state.lastAppliedAt) then Quiet(l, false)
      else
        var applied := l.(state := l.state.(session := session, lastAppliedAt := messageTime));
        Quiet(WithClock(applied, Resynced(l.clock, messageTime, mono)), true)
    case ServerTime(time) =>
      if l.decommissioned then Quiet(l, false)
      else Quiet(WithClock(l, Resynced(l.clock, time, mono)), false)
  }

  /** `store.save` inside `accept_decommission`. */
  function AcceptPersisted(l: Loop): Outcome
    requires l.stage.Accepting?
  {
    Quiet(l.(stage := Persisted), true)
  }

  /** The rest of `accept_decommission`: dismiss the warning, queue the acknowledgement. */
  function AcceptSent(l: Loop): Outcome
    requires l.stage.Persisted?
  {
    Outcome(l.(stage := Selecting, decommissioned := true), false, [], [Warnings.DismissFinalWarning])
  }

  /** The ticker branch of the loop. */
  function Ticked(l: Loop, osNow: Millis, mono: Millis): Outcome
    requires l.stage.Selecting?
  {
    if l.decommissioned then Quiet(l, false)
    else
      var clock := Read(l.clock, osNow, mono);
      var allowed := Usable(l.state.session, clock.mark);
      var session := Expire(l.state.session, clock.mark);
      var calls := if !allowed then [DisableUsage] else if l.currentlyBlocked then [EnableUsage] else [];
      var (warnings, effects) := Warnings.Reconciled(l.warnings, session, clock.mark);
      var l' := l.(state := l.state.(session := session), currentlyBlocked := !allowed, warnings := warnings);
      Outcome(WithClock(l', clock), true, calls, effects)
  }

  /** The running process: the fields of `run`, and the objects it drives. */
  class Runner {
    var credentials: Option<Credentials>
    var flag: bool                          // `state.decommissioned`
    const enforced: EnforcedSession         // `state.session` and `state.last_applied_at`
    var highWaterMark: Millis               // `state.trusted_high_water_mark`
    const clock: ClockGuard
    var decommissioned: bool
    var currentlyBlocked: bool
    const warnings: Warnings.ExpiryWarnings
    const store: Store
    var calls: seq<OsCall>                  // what the platform layer was asked to do
    var effects: seq<Warnings.WarningEffect>  // what the warnings thread was sent
    var acknowledgements: nat               // commands sent to the connection task

    ghost function State(): AgentState
      reads this, enforced
    {
      AgentState(credentials, flag, enforced.session, enforced.lastAppliedAt, highWaterMark)
    }

    ghost function View(): Loop
      reads this, enforced, clock, warnings
    {
      Loop(State(), clock.View(), decommissioned, currentlyBlocked, warnings.View(), Selecting)
    }

    constructor (state: AgentState, mono: Millis, store: Store)
      ensures View() == Booted(state, mono)
      ensures this.store == store && fresh(enforced) && fresh(clock) && fresh(warnings)
      ensures calls == [] && effects == []
      ensures acknowledgements == if state.decommissioned then 1 else 0
    {
      credentials, flag, highWaterMark := state.credentials, state.decommissioned, state.trustedHighWaterMark;
      decommissioned, currentlyBlocked := state.decommissioned, true;
      enforced := new EnforcedSession(state.session, state.lastAppliedAt);
      clock := new ClockGuard(state.trustedHighWaterMark, mono);
      warnings := new Warnings.ExpiryWarnings();
      this.store := store;
      calls, effects := [], [];
      acknowledgements := if state.decommissioned then 1 else 0;
    }

    method Current() returns (state: AgentState)
      ensures state == State()
    {
      state := AgentState(credentials, flag, enforced.session, enforced.lastAppliedAt, highWaterMark);
    }

    method HandleEvent(event: ServerEvent, mono: Millis)
      modifies this, enforced, clock, store
      ensures event.Decommission? && !old(decommissioned) ==>
                var persisted := AcceptPersisted(Handled(old(View()), event, mono).loop);
                && View() == AcceptSent(persisted.loop).loop
                && store.View() == SaveStages(old(store.View()), persisted.loop.state)[3]
                && effects == old(effects) + AcceptSent(persisted.loop).effects
                && acknowledgements == old(acknowledgements) + 1
      ensures !(event.Decommission? && !old(decommissioned)) ==>
                var outcome := Handled(old(View()), event, mono);
                && View() == outcome.loop
                && store.View() == (if outcome.saved then SaveStages(old(store.View()), outcome.loop.state)[3]
                                    else old(store.View()))
                && effects == old(effects)
                && acknowledgements == old(acknowledgements)
      ensures calls == old(calls)
    {
      match event {
        case Decommission =>
          if !decommissioned {
            AcceptDecommission();
            decommissioned := true;
          }
        case SessionState(session, messageTime) =>
          if !decommissioned {
            var applied := enforced.ApplyServerMessage(session, messageTime);
            if applied {
              clock.ResyncFromServer(messageTime, mono);
              highWaterMark := clock.highWaterMark;
              var state := Current();
              store.Save(state);
            }
          }
        case ServerTime(time) =>
          if !decommissioned {
            clock.ResyncFromServer(time, mono);
            highWaterMark := clock.highWaterMark;
          }
      }
    }

    /** Durably records the terminal state first, and only then queues the acknowledgement. */
    method AcceptDecommission()
      modifies this`flag, this`effects, this`acknowledgements, enforced, store
      ensures State() == old(State()).(decommissioned := true, session := None)
      ensures store.View() == SaveStages(old(store.View()), State())[3]
      ensures effects == old(effects) + [Warnings.DismissFinalWarning]
      ensures acknowledgements == old(acknowledgements) + 1
    {
      flag := true;
      enforced.session := None;
      var state := Current();
      store.Save(state);
      effects := effects + [Warnings.DismissFinalWarning];
      acknowledgements := acknowledgements + 1;
    }

    method Tick(osNow: Millis, mono: Millis)
      modifies this, enforced, clock, warnings, store
      ensures var outcome := Ticked(old(View()), osNow, mono);
              && View() == outcome.loop
              && store.View() == (if outcome.saved then SaveStages(old(store.View()), outcome.loop.state)[3]
                                  else old(store.View()))
              && calls == old(calls) + outcome.calls
              && effects == old(effects) + outcome.effects
      ensures acknowledgements == old(acknowledgements)
    {
      if decommissioned {
        return;
      }
      var trustedNow := clock.Now(osNow, mono);
      highWaterMark := clock.highWaterMark;
      var desired := enforced.Advance(trustedNow);
      if desired.Blocked? {
        calls := calls + [DisableUsage];
        currentlyBlocked := true;
      } else if currentlyBlocked {
        calls := calls + [EnableUsage];
        currentlyBlocked := false;
      }
      var shown := warnings.Reconcile(enforced.session, trustedNow);
      effects := effects + shown;
      var state := Current();
      store.Save(state);
    }

    method Shutdown()
      modifies store
      ensures store.View() == SaveStages(old(store.View()), State())[3]
    {
      var state := Current();
      store.Save(state);
    }
  }
}
