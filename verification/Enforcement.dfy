/**
  Enforcement over whole histories: one computer, its state file, and any interleaving of
  enrolments, boots, crashes, shutdowns, server events in any order, and ticks of any clock.

  A crash loses the process and leaves the file as the last rename left it; one in the middle
  of a step's save leaves the computer as one before or after that step does (`CrashInSave`).
 */
module Enforcement {
  import opened Basics
  import opened Clock
  import opened Session
  import opened Storage
  import opened RunLoop

  datatype Message = Message(session: Option<SessionSnapshot>, time: Millis)

  /** `heard` and `base` are history: the messages handled, and the baseline, since enrolment. */
  datatype Computer = Computer(
    disk: Option<AgentState>,
    process: Option<Loop>,
    heard: seq<Message>,
    base: Millis)

  const BLANK := Computer(None, None, [], 0)

  datatype Action =
    | Enroll(credentials: Credentials, now: Millis)
    | Boot(mono: Millis)
    | Crash
    | Shutdown
    | Handle(event: ServerEvent, mono: Millis)
    | PersistAccept
    | SendAck
    | Tick(os: Millis, mono: Millis)

  predicate Running(c: Computer, stage: Stage) {
    c.process.Some? && c.process.value.stage == stage
  }

  predicate Enabled(c: Computer, a: Action) {
    match a
    case Enroll(_, _) => c.process.None?
    case Boot(_) => c.process.None? && c.disk.Some? && c.disk.value.credentials.Some?
    case Crash => c.process.Some?
    case PersistAccept => Running(c, Accepting)
    case SendAck => Running(c, Persisted)
    case _ => Running(c, Selecting)
  }

  /** `enroll`: a clean slate, except for the two clocks that must never move backward. */
  function Enrolled(file: Option<AgentState>, credentials: Credentials, now: Millis): AgentState {
    var state := LoadedForEnroll(if file.Some? then Whole(file.value) else Missing, now);
    state.(credentials := Some(credentials), decommissioned := false, session := None)
  }

  function Settle(c: Computer, outcome: Outcome): Computer {
    c.(process := Some(outcome.loop), disk := if outcome.saved then Some(outcome.loop.state) else c.disk)
  }

  function Apply(c: Computer, a: Action): Computer
    requires Enabled(c, a)
  {
    match a
    case Enroll(credentials, now) =>
      var state := Enrolled(c.disk, credentials, now);
      Computer(Some(state), None, [], state.lastAppliedAt)
    case Boot(mono) => c.(process := Some(Booted(c.disk.value, mono)))
    case Crash => c.(process := None)
    case Shutdown => c.(disk := Some(c.process.value.state), process := None)
    case Handle(event, mono) =>
      var c' := Settle(c, Handled(c.process.value, event, mono));
      if event.SessionState? then c'.(heard := c.heard + [Message(event.session, event.messageTime)]) else c'
    case PersistAccept => Settle(c, AcceptPersisted(c.process.value))
    case SendAck => Settle(c, AcceptSent(c.process.value))
    case Tick(os, mono) => Settle(c, Ticked(c.process.value, os, mono))
  }

  /** The process is gone, and what it left is on disk. */
  function Ended(c: Computer): Computer {
    c.(process := None)
  }

  /** The process dies at stage `k` of the save that ends step `a`, and leaves these files behind. */
  function DiedSaving(c: Computer, a: Action, d: Directory, k: nat): Computer
    requires Enabled(c, a) && Apply(c, a).disk.Some? && k < 4
  {
    var done := Apply(c, a);
    (if k < 3 then Ended(c) else Ended(done)).(disk := StateIn(SaveStages(d, done.disk.value)[k].main))
  }

  lemma CrashInSave(c: Computer, a: Action, d: Directory, k: nat)
    requires Enabled(c, a) && Apply(c, a).disk.Some? && StateIn(d.main) == c.disk && k < 4
    ensures DiedSaving(c, a, d, k) == if k < 3 then Ended(c) else Ended(Apply(c, a))
  {
    CrashDuringSave(d, Apply(c, a).disk.value, k, 0);
  }

  /** The computer after a history, or none if some step was not possible. */
  function Reached(actions: seq<Action>): Option<Computer> {
    if actions == [] then Some(BLANK)
    else
      var c := Reached(actions[..|actions| - 1]);
      if c.Some? && Enabled(c.value, actions[|actions| - 1])
      then Some(Apply(c.value, actions[|actions| - 1]))
      else None
  }

  // The stateless specification.

  /**
    Message `i` governs: it is newer than the baseline, nothing heard is newer than it, and
    nothing heard before it is as new.
   */
  ghost predicate Governs(heard: seq<Message>, base: Millis, i: int) {
    && 0 <= i < |heard|
    && heard[i].time > base
    && (forall j :: 0 <= j < |heard| ==> heard[j].time <= heard[i].time)
    && (forall j :: 0 <= j < i ==> heard[j].time < heard[i].time)
  }

  /** What the messages alone say about a trusted instant. */
  ghost predicate SpecAllowed(heard: seq<Message>, base: Millis, now: Millis) {
    exists i :: Governs(heard, base, i) && Usable(heard[i].session, now)
  }

  /** The governing message's index, found message by message; -1 if none governs. */
  function Governor(heard: seq<Message>, base: Millis): (i: int)
    ensures -1 <= i < |heard|
  {
    if heard == [] then -1
    else
      var n := |heard| - 1;
      var i := Governor(heard[..n], base);
      if heard[n].time > (if i < 0 then base else heard[i].time) then n else i
  }

  lemma {:induction false} GovernorGoverns(heard: seq<Message>, base: Millis)
    ensures var i := Governor(heard, base);
            if i >= 0 then Governs(heard, base, i) else forall j :: 0 <= j < |heard| ==> heard[j].time <= base
  {
    if heard != [] {
      var n := |heard| - 1;
      GovernorGoverns(heard[..n], base);
      assert forall j :: 0 <= j < n ==> heard[..n][j] == heard[j];
      assert Governor(heard, base) == n || Governor(heard, base) == Governor(heard[..n], base);
    }
  }

  lemma {:induction false} SpecIsGovernor(heard: seq<Message>, base: Millis, now: Millis)
    ensures SpecAllowed(heard, base, now) <==>
            Governor(heard, base) >= 0 && Usable(heard[Governor(heard, base)].session, now)
  {
    GovernorGoverns(heard, base);
    var g := Governor(heard, base);
    if i :| Governs(heard, base, i) && Usable(heard[i].session, now) {
      assert heard[i].time > base;
      assert heard[g].time <= heard[i].time && heard[i].time <= heard[g].time;
      assert i == g;
    }
  }

  /**
    Only which messages were heard matters, not their order or how often each came, as long as
    messages with one timestamp agree.
   */
  lemma OrderAndDuplicatesAreHarmless(a: seq<Message>, b: seq<Message>, base: Millis, now: Millis)
    requires forall m :: m in a <==> m in b
    requires forall m, m' :: m in a && m' in a && m.time == m'.time ==> m == m'
    ensures SpecAllowed(a, base, now) <==> SpecAllowed(b, base, now)
  {
    SpecIsGovernor(a, base, now);
    SpecIsGovernor(b, base, now);
    GovernorGoverns(a, base);
    GovernorGoverns(b, base);
    var i, j := Governor(a, base), Governor(b, base);
    if i >= 0 {
      assert a[i] in b;
    }
    if j >= 0 {
      assert b[j] in a;
    }
    if i >= 0 && j >= 0 {
      assert a[i].time == b[j].time;
    }
  }

  // The invariant that ties the state file and the process to the messages.

  /** The held session is the message's, or that session expired offline by a mark past its end. */
  predicate HeldFrom(held: Option<SessionSnapshot>, sent: Option<SessionSnapshot>, mark: Millis) {
    held == sent || (sent.Some? && sent.value.status.Active? && mark >= sent.value.expiresAt
                     && held == Some(sent.value.(status := Expired)))
  }

  predicate Tracks(state: AgentState, mark: Millis, heard: seq<Message>, base: Millis) {
    var i := Governor(heard, base);
    if i >= 0 then state.lastAppliedAt == heard[i].time && HeldFrom(state.session, heard[i].session, mark)
    else state.lastAppliedAt == base && state.session.None?
  }

  ghost predicate Valid(c: Computer) {
    && (c.disk.Some? && c.disk.value.decommissioned ==> c.disk.value.session.None?)
    && (c.disk.Some? && !c.disk.value.decommissioned ==>
          Tracks(c.disk.value, c.disk.value.trustedHighWaterMark, c.heard, c.base))
    && (c.process.Some? ==> c.disk.Some? && ValidProcess(c.process.value, c.disk.value, c.heard, c.base))
  }

  ghost predicate ValidProcess(l: Loop, disk: AgentState, heard: seq<Message>, base: Millis) {
    && l.state.trustedHighWaterMark == l.clock.mark >= disk.trustedHighWaterMark
    && l.state.credentials == disk.credentials
    && l.state.lastAppliedAt == disk.lastAppliedAt
    && match l.stage
       case Selecting =>
         && l.decommissioned == l.state.decommissioned == disk.decommissioned
         && l.state.session == disk.session
         && (!l.decommissioned ==> Tracks(l.state, l.clock.mark, heard, base))
       case Accepting => !l.decommissioned && l.state.decommissioned && l.state.session.None?
       case Persisted => !l.decommissioned && l.state.decommissioned && disk == l.state && l.state.session.None?
  }

  lemma HandleKeepsValid(c: Computer, event: ServerEvent, mono: Millis)
    requires Valid(c) && Enabled(c, Handle(event, mono))
    ensures Valid(Apply(c, Handle(event, mono)))
  {
    if event.SessionState? {
      var m := Message(event.session, event.messageTime);
      assert (c.heard + [m])[..|c.heard|] == c.heard;
    }
  }

  lemma StepKeepsValid(c: Computer, a: Action)
    requires Valid(c) && Enabled(c, a)
    ensures Valid(Apply(c, a))
  {
    match a
    case Handle(event, mono) => HandleKeepsValid(c, event, mono);
    case _ =>
  }

  lemma {:induction false} AlwaysValid(actions: seq<Action>)
    requires Reached(actions).Some?
    ensures Valid(Reached(actions).value)
  {
    if actions != [] {
      var n := |actions| - 1;
      AlwaysValid(actions[..n]);
      StepKeepsValid(Reached(actions[..n]).value, actions[n]);
    }
  }

  /**
    Enforcement refines the stateless rule. After any history, a tick of a managed agent asks
    for the machine to be locked exactly when the messages heard since enrolment do not allow
    its use at the trusted time of that tick.
   */
  lemma {:induction false} EnforcementRefinesMessages(actions: seq<Action>, os: Millis, mono: Millis)
    requires Reached(actions).Some?
    requires Running(Reached(actions).value, Selecting) && !Reached(actions).value.process.value.decommissioned
    ensures var c := Reached(actions).value;
            var outcome := Ticked(c.process.value, os, mono);
            var allowed := SpecAllowed(c.heard, c.base, outcome.loop.clock.mark);
            && (DisableUsage in outcome.calls <==> !allowed)
            && outcome.loop.currentlyBlocked == !allowed
            && (EnableUsage in outcome.calls <==> allowed && c.process.value.currentlyBlocked)
  {
    AlwaysValid(actions);
    var c := Reached(actions).value;
    SpecIsGovernor(c.heard, c.base, Ticked(c.process.value, os, mono).loop.clock.mark);
  }

  /**
    What the server pushes is applied if and only if it is newer than every message heard since
    enrolment and than the baseline, which enrolment may take from the agent's own clock.
   */
  lemma {:induction false} PushIsAppliedIff(actions: seq<Action>, session: Option<SessionSnapshot>, time: Millis,
                                            mono: Millis)
    requires Reached(actions).Some?
    requires Running(Reached(actions).value, Selecting) && !Reached(actions).value.process.value.decommissioned
    ensures var c := Reached(actions).value;
            var outcome := Handled(c.process.value, SessionState(session, time), mono);
            if time > c.base && forall m :: m in c.heard ==> time > m.time
            then outcome.saved && outcome.loop.state.session == session && outcome.loop.state.lastAppliedAt == time
            else outcome == Quiet(c.process.value, false)
  {
    AlwaysValid(actions);
    var c := Reached(actions).value;
    GovernorGoverns(c.heard, c.base);
    var i := Governor(c.heard, c.base);
    if i >= 0 {
      assert c.heard[i] in c.heard;
    }
  }

  /** So an agent with a fast clock refuses even the first push after its first enrolment. */
  lemma FirstPushCanBeRefused(session: SessionSnapshot) returns (actions: seq<Action>)
    ensures Reached(actions).Some? && Running(Reached(actions).value, Selecting)
    ensures var c := Reached(actions).value;
            c.heard == [] && Handled(c.process.value, SessionState(Some(session), session.updatedAt), 0) ==
              Quiet(c.process.value, false)
  {
    var enroll := Enroll(Credentials(0, 0), session.updatedAt);
    actions := [enroll, Boot(0)];
    assert actions[..1] == [enroll] && [enroll][..0] == [];
    assert Reached([enroll]) == Some(Apply(BLANK, enroll));
  }

  // The file across incarnations.

  /** The saved clocks of `later` are not behind those of `earlier`. */
  predicate NotBehind(earlier: Option<AgentState>, later: Option<AgentState>) {
    earlier.Some? ==>
      && later.Some?
      && earlier.value.trustedHighWaterMark <= later.value.trustedHighWaterMark
      && earlier.value.lastAppliedAt <= later.value.lastAppliedAt
  }

  lemma {:induction false} ReachedPrefix(actions: seq<Action>, i: nat)
    requires i < |actions| && Reached(actions).Some?
    ensures Reached(actions[..|actions| - 1]).Some?
    ensures actions[..|actions| - 1][..i] == actions[..i]
  {
  }

  lemma StepNotBehind(c: Computer, a: Action)
    requires Valid(c) && Enabled(c, a)
    ensures NotBehind(c.disk, Apply(c, a).disk)
  {
  }

  /**
    The saved high-water mark and message time never decrease, through ticks, messages, crashes,
    restarts and enrolments, and no trusted reading is ever behind the mark on disk.
   */
  lemma {:induction false} DurableClocksNeverDecrease(actions: seq<Action>, i: nat)
    requires i <= |actions| && Reached(actions).Some?
    ensures Reached(actions[..i]).Some?
    ensures NotBehind(Reached(actions[..i]).value.disk, Reached(actions).value.disk)
    ensures var c := Reached(actions).value;
            c.process.Some? ==>
              c.disk.Some? && forall os, mono ::
                Read(c.process.value.clock, os, mono).mark >= c.disk.value.trustedHighWaterMark
  {
    AlwaysValid(actions);
    if i == |actions| {
      assert actions[..i] == actions;
    } else {
      var n := |actions| - 1;
      ReachedPrefix(actions, i);
      DurableClocksNeverDecrease(actions[..n], i);
      AlwaysValid(actions[..n]);
      StepNotBehind(Reached(actions[..n]).value, actions[n]);
    }
  }

  predicate NotActive(session: Option<SessionSnapshot>) {
    session.Some? ==> !session.value.status.Active?
  }

  /** No session that `c` holds, in memory or on disk, is active, unless a newer message came. */
  predicate StillClosed(c: Computer, lastAppliedAt: Millis) {
    && c.disk.Some? && c.disk.value.lastAppliedAt >= lastAppliedAt
    && (c.disk.value.lastAppliedAt == lastAppliedAt ==>
          NotActive(c.disk.value.session) && (c.process.Some? ==> NotActive(c.process.value.state.session)))
  }

  lemma StepKeepsClosed(c: Computer, a: Action, lastAppliedAt: Millis)
    requires Valid(c) && Enabled(c, a) && StillClosed(c, lastAppliedAt)
    ensures StillClosed(Apply(c, a), lastAppliedAt)
  {
  }

  lemma {:induction false} ClosedStaysClosed(actions: seq<Action>, i: nat)
    requires i <= |actions| && Reached(actions).Some? && Reached(actions[..i]).Some?
    requires var c := Reached(actions[..i]).value; c.disk.Some? && NotActive(c.disk.value.session)
    ensures StillClosed(Reached(actions).value, Reached(actions[..i]).value.disk.value.lastAppliedAt)
  {
    AlwaysValid(actions[..i]);
    if i == |actions| {
      assert actions[..i] == actions;
    } else {
      var n := |actions| - 1;
      ReachedPrefix(actions, i);
      ClosedStaysClosed(actions[..n], i);
      AlwaysValid(actions[..n]);
      StepKeepsClosed(Reached(actions[..n]).value, actions[n], Reached(actions[..i]).value.disk.value.lastAppliedAt);
    }
  }

  /**
    Once the file says that the session is over, every later incarnation locks at every tick,
    whatever its clock shows, until a strictly newer message has been accepted.
   */
  lemma {:induction false} SavedExpiryStaysBlocked(actions: seq<Action>, i: nat, os: Millis, mono: Millis)
    requires i <= |actions| && Reached(actions).Some? && Reached(actions[..i]).Some?
    requires var c := Reached(actions[..i]).value; c.disk.Some? && NotActive(c.disk.value.session)
    requires var c := Reached(actions).value;
             Running(c, Selecting) && !c.process.value.decommissioned
    ensures var c := Reached(actions).value;
            DisableUsage !in Ticked(c.process.value, os, mono).calls ==>
              c.disk.Some? &&
              c.disk.value.lastAppliedAt > Reached(actions[..i]).value.disk.value.lastAppliedAt
  {
    ClosedStaysClosed(actions, i);
    AlwaysValid(actions);
  }

  lemma StepKeepsDecommissioned(c: Computer, a: Action)
    requires Valid(c) && Enabled(c, a) && !a.Enroll? && c.disk.Some? && c.disk.value.decommissioned
    ensures Apply(c, a).disk.Some? && Apply(c, a).disk.value.decommissioned
  {
  }

  /** `decommissioned` on disk survives everything but an enrolment. */
  lemma {:induction false} DecommissionIsIrrevocable(actions: seq<Action>, i: nat)
    requires i <= |actions| && Reached(actions).Some? && Reached(actions[..i]).Some?
    requires var c := Reached(actions[..i]).value; c.disk.Some? && c.disk.value.decommissioned
    requires forall k :: i <= k < |actions| ==> !actions[k].Enroll?
    ensures var c := Reached(actions).value;
            c.disk.Some? && c.disk.value.decommissioned && c.disk.value.session.None?
    ensures var c := Reached(actions).value;
            Running(c, Selecting) ==>
                forall os, mono :: Ticked(c.process.value, os, mono) == Quiet(c.process.value, false)
  {
    AlwaysValid(actions);
    if i == |actions| {
      assert actions[..i] == actions;
    } else {
      var n := |actions| - 1;
      ReachedPrefix(actions, i);
      assert forall k :: i <= k < |actions[..n]| ==> actions[..n][k] == actions[k];
      DecommissionIsIrrevocable(actions[..n], i);
      AlwaysValid(actions[..n]);
      StepKeepsDecommissioned(Reached(actions[..n]).value, actions[n]);
    }
  }
}
