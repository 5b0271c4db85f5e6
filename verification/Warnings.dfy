/** Deciding what the user is told as a deadline approaches (agent/src/warning.rs). */
module Warnings {
  import opened Basics
  import opened Session

  const TEN_MINUTES := 600
  const FIVE_MINUTES := 300
  const ONE_MINUTE := 60
  const FINAL := 30
  const CONTINUITY_GAP := 30

  datatype Level = TenMinutes | FiveMinutes | OneMinute | Final
  {
    /** The declaration order, which is the order of urgency. */
    function Rank(): (r: nat) {
      match this
      case TenMinutes => 1
      case FiveMinutes => 2
      case OneMinute => 3
      case Final => 4
    }
  }

  datatype Urgency = Normal | Critical

  /** A notification; its title states the minutes left and its body goes with the level. */
  datatype Notice = Notice(minutes: int, level: Level, urgency: Urgency)

  datatype WarningEffect =
    | Notify(notice: Notice)
    | ShowFinalWarning(remainingSecs: int)
    | DismissFinalWarning

  datatype DeadlineKey = DeadlineKey(sessionId: string, expiresAt: Millis)

  /** The level an agent that has been watching crosses into. */
  function LevelFor(remaining: int): Option<Level> {
    if remaining <= FINAL then Some(Final)
    else if remaining <= ONE_MINUTE then Some(OneMinute)
    else if remaining <= FIVE_MINUTES then Some(FiveMinutes)
    else if remaining <= TEN_MINUTES then Some(TenMinutes)
    else None
  }

  /** The level for an agent that was away: inside the last minute, straight to the final one. */
  function ArrivingLateLevel(remaining: int): Option<Level> {
    if remaining <= ONE_MINUTE then Some(Final) else LevelFor(remaining)
  }

  function NoticeFor(level: Level, remaining: int): Notice {
    Notice((remaining + 30) / 60, level, if level.OneMinute? || level.Final? then Critical else Normal)
  }

  /** The abstract value of `ExpiryWarnings`. */
  datatype State = State(
    key: Option<DeadlineKey>,
    fired: Option<Level>,
    lastSeen: Option<Millis>,
    finalVisible: bool)

  const INITIAL := State(None, None, None, false)

  /** The deadline worth warning about: only an active session has one. */
  function KeyOf(session: Option<SessionSnapshot>): Option<DeadlineKey> {
    if session.Some? && session.value.status.Active?
    then Some(DeadlineKey(session.value.id, session.value.expiresAt))
    else None
  }

  function Rank(fired: Option<Level>): nat {
    match fired
    case None => 0
    case Some(level) => level.Rank()
  }

  function Remaining(key: DeadlineKey, now: Millis): int {
    NumSeconds(key.expiresAt - now)
  }

  predicate ArrivedLate(lastSeen: Option<Millis>, now: Millis) {
    lastSeen.None? || NumSeconds(now - lastSeen.value) > CONTINUITY_GAP
  }

  function Dismissal(s: State): seq<WarningEffect> {
    if s.finalVisible then [DismissFinalWarning] else []
  }

  /** A different deadline, or none, starts the lifecycle over. */
  function Rekeyed(s: State, key: Option<DeadlineKey>): State {
    if key != s.key then State(key, None, None, false) else s
  }

  /** The level due at `now`, if it is more urgent than everything already fired. */
  function Due(s: State, now: Millis): Option<Level>
    requires s.key.Some?
  {
    var remaining := Remaining(s.key.value, now);
    var level := if ArrivedLate(s.lastSeen, now) then ArrivingLateLevel(remaining) else LevelFor(remaining);
    if level.Some? && level.value.Rank() > Rank(s.fired) then level else None
  }

  function EffectOf(level: Level, remaining: int): WarningEffect {
    if level.Final? then ShowFinalWarning(remaining) else Notify(NoticeFor(level, remaining))
  }

  /** One evaluation of a deadline that has not just changed. */
  function Evaluated(s: State, now: Millis): (State, seq<WarningEffect>)
    requires s.key.Some?
  {
    var remaining := Remaining(s.key.value, now);
    var seen := s.(lastSeen := Some(now));
    if remaining <= 0 then
      (seen.(finalVisible := false), Dismissal(s))
    else
      match Due(s, now)
      case None => (seen, [])
      case Some(level) =>
        (seen.(fired := Some(level), finalVisible := s.finalVisible || level.Final?), [EffectOf(level, remaining)])
  }

  function Reconciled(s: State, session: Option<SessionSnapshot>, now: Millis): (State, seq<WarningEffect>) {
    var key := KeyOf(session);
    var changed := if key != s.key then Dismissal(s) else [];
    var rekeyed := Rekeyed(s, key);
    if key.None? then
      (rekeyed, changed)
    else
      var (s', effects) := Evaluated(rekeyed, now);
      (s', changed + effects)
  }

  class ExpiryWarnings {
    var key: Option<DeadlineKey>
    var fired: Option<Level>
    var lastSeen: Option<Millis>
    var finalVisible: bool

    ghost function View(): State
      reads this
    {
      State(key, fired, lastSeen, finalVisible)
    }

    constructor ()
      ensures View() == INITIAL
    {
      key, fired, lastSeen, finalVisible := None, None, None, false;
    }

    method DismissFinal(effects: seq<WarningEffect>) returns (effects': seq<WarningEffect>)
      modifies this`finalVisible
      ensures !finalVisible
      ensures effects' == effects + Dismissal(old(View()))
    {
      effects' := effects;
      if finalVisible {
        finalVisible := false;
        effects' := effects' + [DismissFinalWarning];
      }
    }

    method Reconcile(session: Option<SessionSnapshot>, now: Millis) returns (effects: seq<WarningEffect>)
      modifies this
      ensures (View(), effects) == Reconciled(old(View()), session, now)
    {
      effects := [];
      var current := None;
      if session.Some? && session.value.status.Active? {
        current := Some(DeadlineKey(session.value.id, session.value.expiresAt));
      }
      if current != key {
        effects := DismissFinal(effects);
        key := current;
        fired := None;
        lastSeen := None;
      }
      ghost var rekeyed := View();
      ghost var changed := effects;
      assert rekeyed == Rekeyed(old(View()), current);
      assert changed == if current != old(key) then Dismissal(old(View())) else [];
      if key.None? {
        return;
      }
      var remaining := NumSeconds(key.value.expiresAt - now);
      var previous := lastSeen;
      lastSeen := Some(now);
      if remaining <= 0 {
        effects := DismissFinal(effects);
        assert effects == changed + Dismissal(rekeyed);
        assert View() == Evaluated(rekeyed, now).0;
        return;
      }
      var arrivedLate := previous.None? || NumSeconds(now - previous.value) > CONTINUITY_GAP;
      var level := if arrivedLate then ArrivingLateLevel(remaining) else LevelFor(remaining);
      if level.None? || (fired.Some? && level.value.Rank() <= fired.value.Rank()) {
        assert Due(rekeyed, now) == None;
        assert effects == changed + [];
        return;
      }
      assert Due(rekeyed, now) == level;
      fired := level;
      match level.value {
        case Final =>
          finalVisible := true;
          effects := effects + [ShowFinalWarning(remaining)];
        case _ =>
          effects := effects + [Notify(NoticeFor(level.value, remaining))];
      }
      assert effects == changed + [EffectOf(level.value, remaining)];
    }
  }
}

/** What whole sequences of ticks show: agent/src/warning.rs driven by agent/src/session.rs. */
module WarningRuns {
  import opened Basics
  import opened Session
  import opened Warnings

  /** One tick of the agent: the session it holds then, and the trusted time. */
  datatype Tick = Tick(session: Option<SessionSnapshot>, now: Millis)

  /** A tick expires the session first and warns about what is left of it. */
  function Ticked(s: State, t: Tick): (State, seq<WarningEffect>) {
    Reconciled(s, Expire(t.session, t.now), t.now)
  }

  function After(ticks: seq<Tick>): State {
    if ticks == [] then INITIAL else Ticked(After(ticks[..|ticks| - 1]), ticks[|ticks| - 1]).0
  }

  function Shown(ticks: seq<Tick>): seq<WarningEffect> {
    if ticks == [] then []
    else Shown(ticks[..|ticks| - 1]) + Ticked(After(ticks[..|ticks| - 1]), ticks[|ticks| - 1]).1
  }

  // Arbitrary ticks: any sessions, extensions and replacements, at any times.

  /** Facts about the state that every tick keeps. */
  ghost predicate Coherent(s: State) {
    && (s.finalVisible ==> s.key.Some? && s.fired == Some(Final))
    && (s.key.None? ==> s.fired.None? && s.lastSeen.None?)
  }

  lemma {:induction false} AlwaysCoherent(ticks: seq<Tick>)
    ensures Coherent(After(ticks))
  {
    if ticks != [] {
      AlwaysCoherent(ticks[..|ticks| - 1]);
    }
  }

  /** The final warning's shows and dismissals, in order: true for a show. */
  function FinalWindow(effects: seq<WarningEffect>): seq<bool> {
    if effects == [] then []
    else
      var e := effects[|effects| - 1];
      FinalWindow(effects[..|effects| - 1]) +
      (if e.ShowFinalWarning? then [true] else if e.DismissFinalWarning? then [false] else [])
  }

  predicate Alternates(window: seq<bool>) {
    forall i :: 0 <= i < |window| ==> (window[i] <==> i % 2 == 0)
  }

  lemma {:induction false} FinalWindowConcat(a: seq<WarningEffect>, b: seq<WarningEffect>)
    ensures FinalWindow(a + b) == FinalWindow(a) + FinalWindow(b)
  {
    if b == [] {
      assert a + b == a;
    } else {
      assert (a + b)[..|a + b| - 1] == a + b[..|b| - 1];
      FinalWindowConcat(a, b[..|b| - 1]);
    }
  }

  lemma FinalWindowOf(e: WarningEffect)
    ensures FinalWindow([e]) == if e.ShowFinalWarning? then [true] else if e.DismissFinalWarning? then [false] else []
  {
    assert [e][..0] == [];
  }

  /** What an evaluation does to the final warning's window, once its deadline is settled. */
  lemma EvaluationWindow(s: State, now: Millis)
    requires Coherent(s) && s.key.Some?
    ensures var (s', effects) := Evaluated(s, now);
            FinalWindow(effects) == (if s.finalVisible && !s'.finalVisible then [false] else [])
                                    + (if s'.finalVisible && !s.finalVisible then [true] else [])
  {
    var effects := Evaluated(s, now).1;
    if effects != [] {
      assert effects == [effects[0]];
      FinalWindowOf(effects[0]);
    }
  }

  /** What one tick does to it. */
  lemma TickWindow(s: State, t: Tick)
    requires Coherent(s)
    ensures var (s', effects) := Ticked(s, t);
            FinalWindow(effects) ==
              (if s.finalVisible && (s'.key != s.key || !s'.finalVisible) then [false] else []) +
              (if s'.finalVisible && (s'.key != s.key || !s.finalVisible) then [true] else [])
  {
    var key := KeyOf(Expire(t.session, t.now));
    var changed := if key != s.key then Dismissal(s) else [];
    FinalWindowOf(DismissFinalWarning);
    if key.Some? {
      var rekeyed := Rekeyed(s, key);
      EvaluationWindow(rekeyed, t.now);
      FinalWindowConcat(changed, Evaluated(rekeyed, t.now).1);
    }
  }

  /** Extending an alternating window by what one tick does keeps it alternating. */
  lemma WindowExtends(window: seq<bool>, visible: bool, dismiss: bool, show: bool)
    requires Alternates(window) && (visible <==> |window| % 2 == 1)
    requires (dismiss ==> visible) && (show ==> dismiss || !visible)
    ensures var longer := window + ((if dismiss then [false] else []) + (if show then [true] else []));
            && Alternates(longer)
            && ((visible && !dismiss) || show <==> |longer| % 2 == 1)
  {
  }

  /**
    Over any run, shows and dismissals of the final warning strictly alternate, starting with a
    show, and the warning is believed to be visible exactly when the last of them was a show.
   */
  lemma {:induction false} ShowAndDismissAlternate(ticks: seq<Tick>)
    ensures Alternates(FinalWindow(Shown(ticks)))
    ensures After(ticks).finalVisible <==> |FinalWindow(Shown(ticks))| % 2 == 1
  {
    if ticks != [] {
      var n := |ticks| - 1;
      ShowAndDismissAlternate(ticks[..n]);
      AlwaysCoherent(ticks[..n]);
      WindowStep(After(ticks[..n]), Shown(ticks[..n]), ticks[n]);
    }
  }

  lemma {:induction false} WindowStep(s: State, shown: seq<WarningEffect>, t: Tick)
    requires Coherent(s) && Alternates(FinalWindow(shown)) && (s.finalVisible <==> |FinalWindow(shown)| % 2 == 1)
    ensures var (s', effects) := Ticked(s, t);
            && Alternates(FinalWindow(shown + effects))
            && (s'.finalVisible <==> |FinalWindow(shown + effects)| % 2 == 1)
  {
    var (s', effects) := Ticked(s, t);
    TickWindow(s, t);
    FinalWindowConcat(shown, effects);
    var dismiss := s.finalVisible && (s'.key != s.key || !s'.finalVisible);
    var show := s'.finalVisible && (s'.key != s.key || !s.finalVisible);
    WindowExtends(FinalWindow(shown), s.finalVisible, dismiss, show);
  }

  /** A visible final warning means that this very tick decided to allow use of the machine. */
  lemma {:induction false} VisibleImpliesAllowed(ticks: seq<Tick>)
    requires ticks != []
    ensures var t := ticks[|ticks| - 1];
            After(ticks).finalVisible ==> Usable(t.session, t.now)
  {
    var n := |ticks| - 1;
    AlwaysCoherent(ticks[..n]);
  }

  /** After an evaluation with time left, everything that should have been said has been. */
  lemma {:induction false} NothingOverdue(ticks: seq<Tick>)
    requires ticks != []
    ensures var s := After(ticks);
            s.key.Some? ==>
              var remaining := Remaining(s.key.value, ticks[|ticks| - 1].now);
              remaining > 0 ==> Rank(s.fired) >= Rank(LevelFor(remaining))
  {
  }

  /** The deadline warned about after the first `i` ticks. */
  function KeyAfter(ticks: seq<Tick>, i: nat): Option<DeadlineKey>
    requires i <= |ticks|
  {
    After(ticks[..i]).key
  }

  /** The level that tick `i` fired, if any. */
  function FiredBy(ticks: seq<Tick>, i: nat): Option<Level>
    requires i < |ticks|
  {
    var before := After(ticks[..i]);
    var key := KeyOf(Expire(ticks[i].session, ticks[i].now));
    if key.Some? && Remaining(key.value, ticks[i].now) > 0
    then Due(Rekeyed(before, key), ticks[i].now)
    else None
  }

  /** What `FiredBy` says is what the tick shows. */
  lemma FiredIsShown(ticks: seq<Tick>, i: nat)
    requires i < |ticks|
    ensures var effects := Ticked(After(ticks[..i]), ticks[i]).1;
            match FiredBy(ticks, i)
            case Some(level) =>
              effects != [] && effects[|effects| - 1] ==
                EffectOf(level, Remaining(KeyOf(Expire(ticks[i].session, ticks[i].now)).value, ticks[i].now))
            case None => forall e :: e in effects ==> e.DismissFinalWarning?
  {
  }

  lemma RisesUnderOneKey(s: State, t: Tick)
    requires Ticked(s, t).0.key == s.key
    ensures Rank(Ticked(s, t).0.fired) >= Rank(s.fired)
  {
  }

  lemma {:induction false} FiredOnlyRises(ticks: seq<Tick>, i: nat, j: nat)
    requires i <= j <= |ticks|
    requires forall k :: i <= k <= j ==> KeyAfter(ticks, k) == KeyAfter(ticks, i)
    ensures Rank(After(ticks[..i]).fired) <= Rank(After(ticks[..j]).fired)
  {
    if i < j {
      FiredOnlyRises(ticks, i, j - 1);
      ShownStep(ticks, j - 1);
      var s := After(ticks[..j - 1]);
      assert KeyAfter(ticks, j - 1) == s.key && KeyAfter(ticks, j) == Ticked(s, ticks[j - 1]).0.key;
      RisesUnderOneKey(s, ticks[j - 1]);
    }
  }

  /**
    While one deadline stays the one warned about, the levels that fire strictly increase: none
    is repeated and none already passed is replayed.
   */
  lemma LevelsStrictlyIncrease(ticks: seq<Tick>, i: nat, j: nat)
    requires i < j < |ticks|
    requires forall k :: i < k <= j + 1 ==> KeyAfter(ticks, k) == KeyAfter(ticks, i + 1)
    requires FiredBy(ticks, i).Some? && FiredBy(ticks, j).Some?
    ensures FiredBy(ticks, i).value.Rank() < FiredBy(ticks, j).value.Rank()
  {
    ShownStep(ticks, i);
    assert Rank(After(ticks[..i + 1]).fired) == FiredBy(ticks, i).value.Rank();
    FiredOnlyRises(ticks, i + 1, j);
    ShownStep(ticks, j);
    assert KeyAfter(ticks, j + 1) == KeyAfter(ticks, j);
  }

  // One deadline counted down to its end.

  predicate CountsDown(session: SessionSnapshot, times: seq<Millis>) {
    && session.status.Active?
    && |times| >= 2
    && Remaining(KeyOf(Some(session)).value, times[0]) > TEN_MINUTES
    && Remaining(KeyOf(Some(session)).value, times[|times| - 1]) <= 0
    && forall i :: 0 < i < |times| ==> times[i - 1] <= times[i]
  }

  /** No two neighbouring ticks are further apart than `gap`. */
  predicate Gapped(times: seq<Millis>, gap: Millis) {
    forall i :: 0 < i < |times| ==> times[i] - times[i - 1] <= gap
  }

  function TicksOf(session: SessionSnapshot, times: seq<Millis>): seq<Tick> {
    seq(|times|, i requires 0 <= i < |times| => Tick(Some(session), times[i]))
  }

  /** Everything a countdown says, in order. */
  function Ladder(final: int): seq<WarningEffect> {
    [Notify(Notice(10, TenMinutes, Normal)),
     Notify(Notice(5, FiveMinutes, Normal)),
     Notify(Notice(1, OneMinute, Critical)),
     ShowFinalWarning(final),
     DismissFinalWarning]
  }

  /** Where on the ladder a remaining time in milliseconds stands; 5 is past its end. */
  function Rung(left: Millis): (r: nat)
    ensures r <= 5
  {
    if left >= 601_000 then 0
    else if left >= 301_000 then 1
    else if left >= 61_000 then 2
    else if left >= 31_000 then 3
    else if left >= 1_000 then 4
    else 5
  }

  /** The state of a countdown that stands on a rung. */
  ghost predicate OnRung(s: State, session: SessionSnapshot, now: Millis) {
    var left := session.expiresAt - now;
    && (left > 0 ==> s.key == KeyOf(Some(session)) && s.lastSeen == Some(now))
    && (left <= 0 ==> s == INITIAL)
    && (1_000 <= left ==> Rank(s.fired) == Rung(left))
    && (0 < left < 1_000 ==> s.fired == Some(Final))
    && (s.finalVisible <==> 1_000 <= left && Rung(left) == 4)
  }

  /** The step between neighbouring ticks of a countdown: at most one rung, said in full. */
  lemma RungStep(s: State, session: SessionSnapshot, was: Millis, now: Millis)
    requires session.status.Active? && OnRung(s, session, was) && was <= now <= was + 30_000
    ensures var (s', effects) := Ticked(s, Tick(Some(session), now));
            var rung, rung' := Rung(session.expiresAt - was), Rung(session.expiresAt - now);
            && OnRung(s', session, now)
            && rung <= rung' <= rung + 1
            && (rung' == rung ==> effects == [])
            && (rung' == rung + 1 ==>
                  && effects == [Ladder(NumSeconds(session.expiresAt - now))[rung]]
                  && (rung' == 4 ==> 1 <= NumSeconds(session.expiresAt - now) <= FINAL))
  {
    var left := session.expiresAt - now;
    var rung, rung' := Rung(session.expiresAt - was), Rung(left);
    var remaining := NumSeconds(left);
    if session.expiresAt - was > 0 && left >= 1_000 {
      assert !ArrivedLate(s.lastSeen, now);
      assert Rank(LevelFor(remaining)) == rung';
    }
  }

  /** What has been shown when the countdown stands on `rung`, and the state it stands in. */
  ghost predicate Standing(s: State, shown: seq<WarningEffect>, session: SessionSnapshot, now: Millis, final: int) {
    && OnRung(s, session, now)
    && shown == Ladder(final)[..Rung(session.expiresAt - now)]
    && (Rung(session.expiresAt - now) >= 4 ==> 1 <= final <= FINAL)
  }

  lemma StandingStep(s: State, shown: seq<WarningEffect>, session: SessionSnapshot, was: Millis, now: Millis,
                     final: int)
    returns (final': int)
    requires session.status.Active? && was <= now <= was + 30_000 && Standing(s, shown, session, was, final)
    ensures var (s', effects) := Ticked(s, Tick(Some(session), now));
            Standing(s', shown + effects, session, now, final')
  {
    RungStep(s, session, was, now);
    var effects := Ticked(s, Tick(Some(session), now)).1;
    var rung, rung' := Rung(session.expiresAt - was), Rung(session.expiresAt - now);
    final' := if rung == 3 && rung' == 4 then NumSeconds(session.expiresAt - now) else final;
    if rung' == rung {
      assert shown + effects == shown;
    } else {
      LadderGrows(final, final', rung);
    }
  }

  lemma LadderGrows(final: int, final': int, rung: nat)
    requires rung < 5 && (rung != 3 ==> final' == final)
    ensures Ladder(final)[..rung] + [Ladder(final')[rung]] == Ladder(final')[..rung + 1]
  {
  }

  lemma {:induction false} LadderPrefix(session: SessionSnapshot, times: seq<Millis>, n: nat) returns (final: int)
    requires CountsDown(session, times) && Gapped(times, 30_000) && 1 <= n <= |times|
    ensures var ticks := TicksOf(session, times)[..n];
            Standing(After(ticks), Shown(ticks), session, times[n - 1], final)
  {
    var all := TicksOf(session, times);
    ShownStep(all, n - 1);
    if n == 1 {
      final := 0;
      FirstTick(session, times[0]);
      assert all[..0] == [];
    } else {
      var before := LadderPrefix(session, times, n - 1);
      var was, now := times[n - 2], times[n - 1];
      assert times[n - 1] - times[(n - 1) - 1] <= 30_000;
      final := StandingStep(After(all[..n - 1]), Shown(all[..n - 1]), session, was, now, before);
    }
  }

  lemma FirstTick(session: SessionSnapshot, now: Millis)
    requires session.status.Active? && Remaining(KeyOf(Some(session)).value, now) > TEN_MINUTES
    ensures var (s, effects) := Ticked(INITIAL, Tick(Some(session), now));
            Standing(s, [] + effects, session, now, 0)
  {
  }

  lemma LadderWhole(final: int)
    ensures Ladder(final)[..5] == Ladder(final)
  {
  }

  /**
    A countdown first seen above ten minutes and ticking at least every 30 seconds shows "10
    minutes", "5 minutes", "1 minute", one final warning and one dismissal: exactly these, in
    this order.
   */
  lemma ExactLadder(session: SessionSnapshot, times: seq<Millis>) returns (final: int)
    requires CountsDown(session, times) && Gapped(times, 30_000)
    ensures 1 <= final <= FINAL
    ensures Shown(TicksOf(session, times)) == Ladder(final)
  {
    var all := TicksOf(session, times);
    final := LadderPrefix(session, times, |times|);
    assert all[..|times|] == all;
    assert Rung(session.expiresAt - times[|times| - 1]) == 5;
    LadderWhole(final);
  }

  // Any countdown at all, wherever it is first seen and whatever its gaps: what it shows and what it skips.

  predicate Begins(session: SessionSnapshot, times: seq<Millis>) {
    && session.status.Active? && times != []
    && forall i :: 0 < i < |times| ==> times[i - 1] <= times[i]
  }

  function RemainingAt(session: SessionSnapshot, now: Millis): int {
    NumSeconds(session.expiresAt - now)
  }

  /** The stretch of remaining time that a threshold opens and the next one closes. */
  predicate InBand(level: Level, remaining: int) {
    match level
    case TenMinutes => 300 < remaining <= 600
    case FiveMinutes => 60 < remaining <= 300
    case OneMinute => 30 < remaining <= 60
    case Final => 0 < remaining <= 30
  }

  /** The first tick that falls in a band, or -1. */
  function First(session: SessionSnapshot, times: seq<Millis>, level: Level): (i: int)
    ensures -1 <= i < |times|
    ensures i >= 0 ==> InBand(level, RemainingAt(session, times[i]))
    ensures forall j :: 0 <= j < (if i >= 0 then i else |times|) ==> !InBand(level, RemainingAt(session, times[j]))
  {
    if times == [] then -1
    else
      var n := |times| - 1;
      var i := First(session, times[..n], level);
      assert forall j :: 0 <= j < n ==> times[..n][j] == times[j];
      if i >= 0 then i else if InBand(level, RemainingAt(session, times[n])) then n else -1
  }

  /** The tick that comes into the last minute is the first of all, or 31 seconds after the one before. */
  predicate EntersLastMinuteLate(session: SessionSnapshot, times: seq<Millis>) {
    var i := First(session, times, OneMinute);
    i == 0 || (i > 0 && times[i] - times[i - 1] >= 31_000)
  }

  predicate FinalDue(session: SessionSnapshot, times: seq<Millis>) {
    EntersLastMinuteLate(session, times) || First(session, times, Final) >= 0
  }

  /** What the first tick in a band says, if there is one. */
  function Say(session: SessionSnapshot, times: seq<Millis>, band: Level, level: Level): seq<WarningEffect> {
    var i := First(session, times, band);
    if i >= 0 then [EffectOf(level, RemainingAt(session, times[i]))] else []
  }

  /** Everything a countdown shows, from the times of its ticks alone. */
  function Countdown(session: SessionSnapshot, times: seq<Millis>): seq<WarningEffect>
    requires times != []
  {
    Say(session, times, TenMinutes, TenMinutes)
    + Say(session, times, FiveMinutes, FiveMinutes)
    + LastMinute(session, times)
    + Farewell(session, times)
  }

  function LastMinute(session: SessionSnapshot, times: seq<Millis>): seq<WarningEffect> {
    if EntersLastMinuteLate(session, times) then Say(session, times, OneMinute, Final)
    else Say(session, times, OneMinute, OneMinute) + Say(session, times, Final, Final)
  }

  function Farewell(session: SessionSnapshot, times: seq<Millis>): seq<WarningEffect>
    requires times != []
  {
    if FinalDue(session, times) && RemainingAt(session, times[|times| - 1]) <= 0 then [DismissFinalWarning] else []
  }

  /** The most urgent level said so far. */
  function Highest(session: SessionSnapshot, times: seq<Millis>): Option<Level> {
    if FinalDue(session, times) then Some(Final)
    else if First(session, times, OneMinute) >= 0 then Some(OneMinute)
    else if First(session, times, FiveMinutes) >= 0 then Some(FiveMinutes)
    else if First(session, times, TenMinutes) >= 0 then Some(TenMinutes)
    else None
  }

  /** The state after a countdown's ticks so far. */
  ghost predicate Counting(s: State, session: SessionSnapshot, times: seq<Millis>)
    requires times != []
  {
    var now := times[|times| - 1];
    if session.expiresAt <= now then s == INITIAL
    else s == State(KeyOf(Some(session)), Highest(session, times), Some(now),
                    FinalDue(session, times) && RemainingAt(session, now) > 0)
  }

  /** Remaining time only falls, so bands are passed in order. */
  lemma {:induction false} RemainingFalls(session: SessionSnapshot, times: seq<Millis>, i: nat, j: nat)
    requires Begins(session, times) && i <= j < |times|
    ensures times[i] <= times[j] && RemainingAt(session, times[i]) >= RemainingAt(session, times[j])
  {
    if i < j {
      RemainingFalls(session, times, i, j - 1);
    }
  }

  /** One more tick leaves a band's first tick, or is it. */
  lemma {:induction false} FirstAppend(session: SessionSnapshot, times: seq<Millis>, now: Millis, level: Level)
    ensures First(session, times + [now], level) ==
            if First(session, times, level) >= 0 then First(session, times, level)
            else if InBand(level, RemainingAt(session, now)) then |times| else -1
  {
    assert (times + [now])[..|times|] == times;
  }

  /** Seen from a later tick, the bands below it have not been reached. */
  lemma {:induction false} NotBelow(session: SessionSnapshot, times: seq<Millis>, now: Millis, level: Level)
    requires Begins(session, times + [now])
    requires level.TenMinutes? ==> RemainingAt(session, now) > TEN_MINUTES
    requires level.FiveMinutes? ==> RemainingAt(session, now) > FIVE_MINUTES
    requires level.OneMinute? ==> RemainingAt(session, now) > ONE_MINUTE
    requires level.Final? ==> RemainingAt(session, now) > FINAL
    ensures First(session, times, level) < 0
  {
    var i := First(session, times, level);
    if i >= 0 {
      assert times[i] == (times + [now])[i];
      RemainingFalls(session, times + [now], i, |times|);
    }
  }

  /** One more tick leaves this state and adds these effects to what the countdown says. */
  ghost predicate Adds(session: SessionSnapshot, times: seq<Millis>, now: Millis, outcome: (State, seq<WarningEffect>))
    requires times != []
  {
    && Counting(outcome.0, session, times + [now])
    && Countdown(session, times + [now]) == Countdown(session, times) + outcome.1
  }

  lemma {:induction false} SayAppend(session: SessionSnapshot, times: seq<Millis>, now: Millis, band: Level,
                                     level: Level)
    ensures Say(session, times + [now], band, level) == Say(session, times, band, level) +
            if First(session, times, band) < 0 && InBand(band, RemainingAt(session, now))
            then [EffectOf(level, RemainingAt(session, now))] else []
  {
    FirstAppend(session, times, now, band);
  }

  /** Once the last minute has begun, how it was entered stays as it was. */
  lemma {:induction false} EntryAppend(session: SessionSnapshot, times: seq<Millis>, now: Millis)
    requires times != []
    ensures EntersLastMinuteLate(session, times + [now]) <==>
            if First(session, times, OneMinute) >= 0 then EntersLastMinuteLate(session, times)
            else InBand(OneMinute, RemainingAt(session, now)) && now - times[|times| - 1] >= 31_000
  {
    FirstAppend(session, times, now, OneMinute);
    var i := First(session, times, OneMinute);
    if i >= 0 {
      assert (times + [now])[i] == times[i];
      assert i > 0 ==> (times + [now])[i - 1] == times[i - 1];
    } else {
      assert (times + [now])[|times| - 1] == times[|times| - 1];
    }
  }

  /** What one more tick adds to each part of a countdown. */
  lemma {:induction false} AllAppend(session: SessionSnapshot, times: seq<Millis>, now: Millis)
    requires times != []
    ensures forall level :: First(session, times + [now], level) ==
              if First(session, times, level) >= 0 then First(session, times, level)
              else if InBand(level, RemainingAt(session, now)) then |times| else -1
    ensures EntersLastMinuteLate(session, times + [now]) <==>
            if First(session, times, OneMinute) >= 0 then EntersLastMinuteLate(session, times)
            else InBand(OneMinute, RemainingAt(session, now)) && now - times[|times| - 1] >= 31_000
  {
    EntryAppend(session, times, now);
    forall level ensures First(session, times + [now], level) ==
        if First(session, times, level) >= 0 then First(session, times, level)
        else if InBand(level, RemainingAt(session, now)) then |times| else -1
    {
      FirstAppend(session, times, now, level);
    }
  }

  /** Effects in the last minute come after everything else, before the dismissal. */
  lemma LastMinuteAdds(session: SessionSnapshot, times: seq<Millis>, now: Millis, effects: seq<WarningEffect>)
    requires times != [] && 0 < RemainingAt(session, now) <= ONE_MINUTE && Farewell(session, times) == []
    requires LastMinute(session, times + [now]) == LastMinute(session, times) + effects
    ensures Countdown(session, times + [now]) == Countdown(session, times) + effects
  {
    SayAppend(session, times, now, TenMinutes, TenMinutes);
    SayAppend(session, times, now, FiveMinutes, FiveMinutes);
  }

  lemma {:induction false} LastMinuteAppend(session: SessionSnapshot, times: seq<Millis>, now: Millis)
    requires times != [] && 0 < RemainingAt(session, now) <= ONE_MINUTE
    requires InBand(OneMinute, RemainingAt(session, now)) ==> First(session, times, Final) < 0
    ensures LastMinute(session, times + [now]) == LastMinute(session, times) +
            (if InBand(OneMinute, RemainingAt(session, now)) then
               if First(session, times, OneMinute) >= 0 then []
               else [EffectOf(LastMinuteLevel(times, now), RemainingAt(session, now))]
             else if FinalDue(session, times) then []
             else [EffectOf(Final, RemainingAt(session, now))])
  {
    EntryAppend(session, times, now);
    SayAppend(session, times, now, OneMinute, OneMinute);
    SayAppend(session, times, now, OneMinute, Final);
    SayAppend(session, times, now, Final, Final);
  }

  /** Before a tick with time left, the session is still counted down and nothing was dismissed. */
  lemma StillCounting(session: SessionSnapshot, times: seq<Millis>, now: Millis)
    requires times != [] && Begins(session, times + [now])
    ensures var was := times[|times| - 1];
            was <= now && RemainingAt(session, was) >= RemainingAt(session, now)
            && (RemainingAt(session, now) > 0 ==> session.expiresAt > now)
  {
    var all := times + [now];
    assert all[|times| - 1] <= all[|times|];
  }

  function LastMinuteLevel(times: seq<Millis>, now: Millis): Level
    requires times != []
  {
    if ArrivedLate(Some(times[|times| - 1]), now) then Final else OneMinute
  }

  /** The level that a tick with time left opens, unless its band has spoken. */
  function Opened(session: SessionSnapshot, times: seq<Millis>, now: Millis): Option<Level>
    requires times != []
  {
    var remaining := RemainingAt(session, now);
    if remaining > TEN_MINUTES then None
    else if InBand(TenMinutes, remaining) then
      if First(session, times, TenMinutes) >= 0 then None else Some(TenMinutes)
    else if InBand(FiveMinutes, remaining) then
      if First(session, times, FiveMinutes) >= 0 then None else Some(FiveMinutes)
    else if InBand(OneMinute, remaining) then
      if First(session, times, OneMinute) >= 0 then None else Some(LastMinuteLevel(times, now))
    else
      if FinalDue(session, times) then None else Some(Final)
  }

  /** What one more tick does to a countdown that stands in state `s`. */
  function Response(session: SessionSnapshot, times: seq<Millis>, now: Millis, s: State): (State, seq<WarningEffect>)
    requires times != []
  {
    var remaining := RemainingAt(session, now);
    if remaining <= 0 then
      (if session.expiresAt <= now then INITIAL else s.(lastSeen := Some(now), finalVisible := false), Dismissal(s))
    else
      match Opened(session, times, now)
      case None => (s.(lastSeen := Some(now)), [])
      case Some(level) =>
        (s.(lastSeen := Some(now), fired := Some(level), finalVisible := s.finalVisible || level.Final?),
         [EffectOf(level, remaining)])
  }

  predicate Gives(session: SessionSnapshot, now: Millis, s: State, outcome: (State, seq<WarningEffect>)) {
    Ticked(s, Tick(Some(session), now)).0 == outcome.0 && Ticked(s, Tick(Some(session), now)).1 == outcome.1
  }

  lemma AboveTick(session: SessionSnapshot, times: seq<Millis>, now: Millis, s: State)
    requires times != [] && Begins(session, times + [now]) && Counting(s, session, times)
    requires RemainingAt(session, now) > TEN_MINUTES
    ensures Gives(session, now, s, Response(session, times, now, s))
  {
    StillCounting(session, times, now);
    NotBelow(session, times, now, TenMinutes);
    NotBelow(session, times, now, FiveMinutes);
    NotBelow(session, times, now, OneMinute);
    NotBelow(session, times, now, Final);
  }

  lemma AboveAdds(session: SessionSnapshot, times: seq<Millis>, now: Millis, s: State)
    requires times != [] && Begins(session, times + [now]) && Counting(s, session, times)
    requires RemainingAt(session, now) > TEN_MINUTES
    ensures Adds(session, times, now, Response(session, times, now, s))
  {
    AllAppend(session, times, now);
    StillCounting(session, times, now);
    NotBelow(session, times, now, TenMinutes);
    NotBelow(session, times, now, FiveMinutes);
    NotBelow(session, times, now, OneMinute);
    NotBelow(session, times, now, Final);
  }

  lemma TenTick(session: SessionSnapshot, times: seq<Millis>, now: Millis, s: State)
    requires times != [] && Begins(session, times + [now]) && Counting(s, session, times)
    requires InBand(TenMinutes, RemainingAt(session, now))
    ensures Gives(session, now, s, Response(session, times, now, s))
  {
    StillCounting(session, times, now);
    NotBelow(session, times, now, FiveMinutes);
    NotBelow(session, times, now, OneMinute);
    NotBelow(session, times, now, Final);
  }

  lemma TenAdds(session: SessionSnapshot, times: seq<Millis>, now: Millis, s: State)
    requires times != [] && Begins(session, times + [now]) && Counting(s, session, times)
    requires InBand(TenMinutes, RemainingAt(session, now))
    ensures Adds(session, times, now, Response(session, times, now, s))
  {
    AllAppend(session, times, now);
    StillCounting(session, times, now);
    NotBelow(session, times, now, FiveMinutes);
    NotBelow(session, times, now, OneMinute);
    NotBelow(session, times, now, Final);
  }

  lemma FiveTick(session: SessionSnapshot, times: seq<Millis>, now: Millis, s: State)
    requires times != [] && Begins(session, times + [now]) && Counting(s, session, times)
    requires InBand(FiveMinutes, RemainingAt(session, now))
    ensures Gives(session, now, s, Response(session, times, now, s))
  {
    StillCounting(session, times, now);
    NotBelow(session, times, now, OneMinute);
    NotBelow(session, times, now, Final);
  }

  lemma FiveAdds(session: SessionSnapshot, times: seq<Millis>, now: Millis, s: State)
    requires times != [] && Begins(session, times + [now]) && Counting(s, session, times)
    requires InBand(FiveMinutes, RemainingAt(session, now))
    ensures Adds(session, times, now, Response(session, times, now, s))
  {
    AllAppend(session, times, now);
    StillCounting(session, times, now);
    NotBelow(session, times, now, OneMinute);
    NotBelow(session, times, now, Final);
  }

  /** A band of half a minute is too short to come late into it twice. */
  lemma OneTick(session: SessionSnapshot, times: seq<Millis>, now: Millis, s: State)
    requires times != [] && Begins(session, times + [now]) && Counting(s, session, times)
    requires InBand(OneMinute, RemainingAt(session, now))
    ensures Gives(session, now, s, Response(session, times, now, s))
  {
    StillCounting(session, times, now);
    NotBelow(session, times, now, Final);
    var i := First(session, times, OneMinute);
    if i >= 0 {
      assert times[i] == (times + [now])[i] && times[|times| - 1] == (times + [now])[|times| - 1];
      RemainingFalls(session, times + [now], i, |times| - 1);
      assert !ArrivedLate(Some(times[|times| - 1]), now);
    }
  }

  lemma OneAdds(session: SessionSnapshot, times: seq<Millis>, now: Millis, s: State)
    requires times != [] && Begins(session, times + [now]) && Counting(s, session, times)
    requires InBand(OneMinute, RemainingAt(session, now))
    ensures Adds(session, times, now, Response(session, times, now, s))
  {
    AllAppend(session, times, now);
    StillCounting(session, times, now);
    NotBelow(session, times, now, Final);
    LastMinuteAppend(session, times, now);
    LastMinuteAdds(session, times, now, Response(session, times, now, s).1);
  }

  lemma FinalTick(session: SessionSnapshot, times: seq<Millis>, now: Millis, s: State)
    requires times != [] && Begins(session, times + [now]) && Counting(s, session, times)
    requires InBand(Final, RemainingAt(session, now))
    ensures Gives(session, now, s, Response(session, times, now, s))
  {
    StillCounting(session, times, now);
  }

  lemma FinalAdds(session: SessionSnapshot, times: seq<Millis>, now: Millis, s: State)
    requires times != [] && Begins(session, times + [now]) && Counting(s, session, times)
    requires InBand(Final, RemainingAt(session, now))
    ensures Adds(session, times, now, Response(session, times, now, s))
  {
    AllAppend(session, times, now);
    StillCounting(session, times, now);
    LastMinuteAppend(session, times, now);
    LastMinuteAdds(session, times, now, Response(session, times, now, s).1);
  }

  lemma LastMinuteKept(session: SessionSnapshot, times: seq<Millis>, now: Millis)
    requires times != [] && RemainingAt(session, now) <= 0
    ensures LastMinute(session, times + [now]) == LastMinute(session, times)
    ensures FinalDue(session, times + [now]) == FinalDue(session, times)
  {
    EntryAppend(session, times, now);
    FirstAppend(session, times, now, Final);
    SayAppend(session, times, now, OneMinute, OneMinute);
    SayAppend(session, times, now, OneMinute, Final);
    SayAppend(session, times, now, Final, Final);
  }

  lemma EndSays(session: SessionSnapshot, times: seq<Millis>, now: Millis)
    requires times != [] && RemainingAt(session, now) <= 0
    ensures Countdown(session, times + [now]) == Countdown(session, times) +
            if FinalDue(session, times)
              && RemainingAt(session, times[|times| - 1]) > 0 then [DismissFinalWarning] else []
  {
    LastMinuteKept(session, times, now);
    SayAppend(session, times, now, TenMinutes, TenMinutes);
    SayAppend(session, times, now, FiveMinutes, FiveMinutes);
  }

  lemma EndTick(session: SessionSnapshot, times: seq<Millis>, now: Millis, s: State)
    requires times != [] && Begins(session, times + [now]) && Counting(s, session, times)
    requires RemainingAt(session, now) <= 0
    ensures Gives(session, now, s, Response(session, times, now, s))
  {
    StillCounting(session, times, now);
  }

  lemma EndAdds(session: SessionSnapshot, times: seq<Millis>, now: Millis, s: State)
    requires times != [] && Begins(session, times + [now]) && Counting(s, session, times)
    requires RemainingAt(session, now) <= 0
    ensures Adds(session, times, now, Response(session, times, now, s))
  {
    AllAppend(session, times, now);
    StillCounting(session, times, now);
    EndSays(session, times, now);
  }

  lemma TickAdds(session: SessionSnapshot, times: seq<Millis>, now: Millis, s: State)
    requires times != [] && Begins(session, times + [now]) && Counting(s, session, times)
    ensures Adds(session, times, now, Ticked(s, Tick(Some(session), now)))
  {
    var remaining := RemainingAt(session, now);
    if remaining > TEN_MINUTES {
      AboveTick(session, times, now, s);
      AboveAdds(session, times, now, s);
    } else if InBand(TenMinutes, remaining) {
      TenTick(session, times, now, s);
      TenAdds(session, times, now, s);
    } else if InBand(FiveMinutes, remaining) {
      FiveTick(session, times, now, s);
      FiveAdds(session, times, now, s);
    } else if InBand(OneMinute, remaining) {
      OneTick(session, times, now, s);
      OneAdds(session, times, now, s);
    } else if InBand(Final, remaining) {
      FinalTick(session, times, now, s);
      FinalAdds(session, times, now, s);
    } else {
      EndTick(session, times, now, s);
      EndAdds(session, times, now, s);
    }
  }

  lemma {:induction false} FirstOfOne(session: SessionSnapshot, now: Millis, level: Level)
    ensures First(session, [now], level) == if InBand(level, RemainingAt(session, now)) then 0 else -1
  {
    FirstAppend(session, [], now, level);
    assert [] + [now] == [now];
  }

  /** The first look at a deadline is always a late one, and takes down what the last deadline left. */
  lemma CountdownStarts(session: SessionSnapshot, now: Millis, s: State)
    requires session.status.Active? && Coherent(s) && s.key != KeyOf(Some(session))
    ensures var (s', effects) := Ticked(s, Tick(Some(session), now));
            effects == Dismissal(s) + Countdown(session, [now]) && Counting(s', session, [now])
  {
    FirstOfOne(session, now, TenMinutes);
    FirstOfOne(session, now, FiveMinutes);
    FirstOfOne(session, now, OneMinute);
    FirstOfOne(session, now, Final);
  }

  lemma {:induction false} OneMoreTick(ticks: seq<Tick>, t: Tick)
    ensures After(ticks + [t]) == Ticked(After(ticks), t).0
    ensures Shown(ticks + [t]) == Shown(ticks) + Ticked(After(ticks), t).1
  {
    assert (ticks + [t])[..|ticks|] == ticks;
  }

  /** These ticks have shown what was said before, and then a countdown's share. */
  ghost predicate Counted(said: seq<WarningEffect>, ticks: seq<Tick>, session: SessionSnapshot, times: seq<Millis>)
    requires times != []
  {
    Shown(ticks) == said + Countdown(session, times) && Counting(After(ticks), session, times)
  }

  lemma {:induction false} CountedStarts(past: seq<Tick>, session: SessionSnapshot, now: Millis)
    requires session.status.Active? && After(past).key != Some(DeadlineKey(session.id, session.expiresAt))
    ensures Counted(Shown(past) + Dismissal(After(past)), past + [Tick(Some(session), now)], session, [now])
  {
    AlwaysCoherent(past);
    CountdownStarts(session, now, After(past));
    OneMoreTick(past, Tick(Some(session), now));
    Regroup(Shown(past), Dismissal(After(past)), Countdown(session, [now]));
  }

  lemma {:induction false} CountedGoesOn(said: seq<WarningEffect>, ticks: seq<Tick>, session: SessionSnapshot,
                                         times: seq<Millis>, now: Millis)
    requires times != [] && Begins(session, times + [now]) && Counted(said, ticks, session, times)
    ensures Counted(said, ticks + [Tick(Some(session), now)], session, times + [now])
  {
    var t := Tick(Some(session), now);
    OneMoreTick(ticks, t);
    TickAdds(session, times, now, After(ticks));
    Regroup(said, Countdown(session, times), Ticked(After(ticks), t).1);
  }

  lemma Regroup(a: seq<WarningEffect>, b: seq<WarningEffect>, c: seq<WarningEffect>)
    ensures a + b + c == a + (b + c)
  {
  }

  lemma TicksAppend(past: seq<Tick>, session: SessionSnapshot, times: seq<Millis>, now: Millis)
    ensures past + TicksOf(session, times + [now]) == past + TicksOf(session, times) + [Tick(Some(session), now)]
  {
    assert TicksOf(session, times + [now]) == TicksOf(session, times) + [Tick(Some(session), now)];
  }

  lemma {:induction false} CountedThroughout(past: seq<Tick>, session: SessionSnapshot, times: seq<Millis>)
    requires Begins(session, times) && After(past).key != Some(DeadlineKey(session.id, session.expiresAt))
    ensures Counted(Shown(past) + Dismissal(After(past)), past + TicksOf(session, times), session, times)
  {
    var n := |times| - 1;
    assert times[..n] + [times[n]] == times;
    TicksAppend(past, session, times[..n], times[n]);
    if n == 0 {
      assert past + TicksOf(session, times[..0]) == past;
      CountedStarts(past, session, times[0]);
    } else {
      CountedThroughout(past, session, times[..n]);
      var said := Shown(past) + Dismissal(After(past));
      CountedGoesOn(said, past + TicksOf(session, times[..n]), session, times[..n], times[n]);
    }
  }

  /**
    After any past, a new deadline is counted down as if it were the first: what an extension, a
    replacement or a late first look shows is the dismissal of an older final warning, if one is
    up, and then what the times of its own ticks say.
   */
  lemma {:induction false} CountdownFollows(past: seq<Tick>, session: SessionSnapshot, times: seq<Millis>)
    requires Begins(session, times) && After(past).key != Some(DeadlineKey(session.id, session.expiresAt))
    ensures Shown(past + TicksOf(session, times)) == Shown(past) + Dismissal(After(past)) + Countdown(session, times)
    ensures Counting(After(past + TicksOf(session, times)), session, times)
  {
    CountedThroughout(past, session, times);
  }

  /**
    What any countdown shows, wherever it is first seen and whatever its gaps: for each threshold
    the first tick in its band speaks, with the minutes left then, and a band that no tick falls
    in is passed over in silence. The one-minute notice gives way to the final warning if its
    tick comes late, as the first tick of all does.
   */
  lemma {:induction false} CountdownShows(session: SessionSnapshot, times: seq<Millis>)
    requires Begins(session, times)
    ensures Shown(TicksOf(session, times)) == Countdown(session, times)
  {
    CountdownFollows([], session, times);
    assert [] + TicksOf(session, times) == TicksOf(session, times);
    assert Shown([]) + Dismissal(INITIAL) + Countdown(session, times) == Countdown(session, times);
  }

  predicate Notified(effects: seq<WarningEffect>, level: Level) {
    exists e :: e in effects && e.Notify? && e.notice.level == level
  }

  lemma NotifiedConcat(a: seq<WarningEffect>, b: seq<WarningEffect>, level: Level)
    ensures Notified(a + b, level) <==> Notified(a, level) || Notified(b, level)
  {
    assert forall e :: e in a || e in b ==> e in a + b;
  }

  lemma {:induction false} SayNotifies(session: SessionSnapshot, times: seq<Millis>, band: Level, said: Level,
                                       level: Level)
    ensures Notified(Say(session, times, band, said), level) <==>
            First(session, times, band) >= 0 && said == level && !level.Final?
  {
    var i := First(session, times, band);
    if i >= 0 {
      assert EffectOf(said, RemainingAt(session, times[i])) in Say(session, times, band, said);
    }
  }

  lemma {:induction false} LastMinuteNotifies(session: SessionSnapshot, times: seq<Millis>, level: Level)
    ensures Notified(LastMinute(session, times), level) <==>
            level.OneMinute? && First(session, times, OneMinute) >= 0 && !EntersLastMinuteLate(session, times)
  {
    SayNotifies(session, times, OneMinute, Final, level);
    SayNotifies(session, times, OneMinute, OneMinute, level);
    SayNotifies(session, times, Final, Final, level);
    NotifiedConcat(Say(session, times, OneMinute, OneMinute), Say(session, times, Final, Final), level);
  }

  lemma {:induction false} CountdownNotifies(session: SessionSnapshot, times: seq<Millis>, level: Level)
    requires times != []
    ensures Notified(Countdown(session, times), level) <==>
            !level.Final? && First(session, times, level) >= 0
            && (level.OneMinute? ==> !EntersLastMinuteLate(session, times))
  {
    var ten, five := Say(session, times, TenMinutes, TenMinutes), Say(session, times, FiveMinutes, FiveMinutes);
    NotifiedConcat(ten, five, level);
    NotifiedConcat(ten + five, LastMinute(session, times), level);
    NotifiedConcat(ten + five + LastMinute(session, times), Farewell(session, times), level);
    SayNotifies(session, times, TenMinutes, TenMinutes, level);
    SayNotifies(session, times, FiveMinutes, FiveMinutes, level);
    LastMinuteNotifies(session, times, level);
  }

  /**
    Which notices a new deadline brings, after any past: that of ten or five minutes if and only
    if some tick falls in its band; that of one minute if and only if some tick does and the
    first of them is not late.
   */
  lemma {:induction false} NoticeAppearsIff(past: seq<Tick>, session: SessionSnapshot, times: seq<Millis>, level: Level)
    requires Begins(session, times) && After(past).key != Some(DeadlineKey(session.id, session.expiresAt))
             && !level.Final?
    ensures Shown(past) <= Shown(past + TicksOf(session, times))
    ensures Notified(Shown(past + TicksOf(session, times))[|Shown(past)|..], level) <==>
            (exists i :: 0 <= i < |times| && InBand(level, RemainingAt(session, times[i])))
            && (level.OneMinute? ==> !EntersLastMinuteLate(session, times))
  {
    CountdownFollows(past, session, times);
    CountdownNotifies(session, times, level);
    var dismissal, countdown := Dismissal(After(past)), Countdown(session, times);
    NotifiedConcat(dismissal, countdown, level);
    Regroup(Shown(past), dismissal, countdown);
    assert (Shown(past) + (dismissal + countdown))[|Shown(past)|..] == dismissal + countdown;
  }

  // What the effects of a countdown say.

  /** `minutes` is `remaining` seconds to the nearest minute, halves up. */
  predicate NearestMinute(minutes: int, remaining: int) {
    60 * minutes - 30 <= remaining < 60 * minutes + 30
  }

  /** The effect states the time that was left at some tick of the countdown, in its own words. */
  ghost predicate Truthful(e: WarningEffect, session: SessionSnapshot, times: seq<Millis>) {
    exists i :: 0 <= i < |times| && Tells(e, RemainingAt(session, times[i]))
  }

  predicate Tells(e: WarningEffect, remaining: int) {
    match e
    case Notify(notice) =>
      && 30 < remaining <= 600 && NearestMinute(notice.minutes, remaining)
      && notice.level == (if remaining > 300 then TenMinutes else if remaining > 60 then FiveMinutes else OneMinute)
      && notice.urgency == (if remaining > 60 then Normal else Critical)
    case ShowFinalWarning(shown) => 0 < remaining <= 60 && shown == remaining
    case DismissFinalWarning => false
  }

  lemma {:induction false} SaidIsTruthful(session: SessionSnapshot, times: seq<Millis>, band: Level, level: Level)
    requires level == band || (band.OneMinute? && level.Final?)
    ensures forall e :: e in Say(session, times, band, level) ==> Truthful(e, session, times)
  {
    var i := First(session, times, band);
    if i >= 0 {
      var remaining := RemainingAt(session, times[i]);
      assert InBand(band, remaining);
      assert Tells(EffectOf(level, remaining), remaining);
    }
  }

  lemma {:induction false} CountdownIsTruthful(session: SessionSnapshot, times: seq<Millis>, e: WarningEffect)
    requires times != [] && e in Countdown(session, times)
    ensures e.DismissFinalWarning? || Truthful(e, session, times)
  {
    SaidIsTruthful(session, times, TenMinutes, TenMinutes);
    SaidIsTruthful(session, times, FiveMinutes, FiveMinutes);
    SaidIsTruthful(session, times, OneMinute, OneMinute);
    SaidIsTruthful(session, times, OneMinute, Final);
    SaidIsTruthful(session, times, Final, Final);
  }

  /**
    After any past, a new deadline's notices state the minutes that were really left at the tick
    that sent them, to the nearest, with the level and urgency of that time; its final warning
    states the very seconds.
   */
  lemma {:induction false} WarningsAreTruthful(past: seq<Tick>, session: SessionSnapshot, times: seq<Millis>)
    requires Begins(session, times) && After(past).key != Some(DeadlineKey(session.id, session.expiresAt))
    ensures Shown(past) <= Shown(past + TicksOf(session, times))
    ensures forall e :: e in Shown(past + TicksOf(session, times))[|Shown(past)|..] ==>
              e.DismissFinalWarning? || Truthful(e, session, times)
  {
    CountdownFollows(past, session, times);
    var dismissal, countdown := Dismissal(After(past)), Countdown(session, times);
    Regroup(Shown(past), dismissal, countdown);
    assert (Shown(past) + (dismissal + countdown))[|Shown(past)|..] == dismissal + countdown;
    forall e | e in countdown ensures e.DismissFinalWarning? || Truthful(e, session, times) {
      CountdownIsTruthful(session, times, e);
    }
  }

  function AtFinal(session: SessionSnapshot, seen: Millis, visible: bool): State {
    State(KeyOf(Some(session)), Some(Final), Some(seen), visible)
  }

  /** Falling from just above one minute to 30.999 seconds skips the one-minute notice. */
  lemma LostRung(s: State, session: SessionSnapshot)
    requires session.status.Active? && OnRung(s, session, session.expiresAt - 61_000)
    ensures var e := session.expiresAt;
            && Ticked(s, Tick(Some(session), e - 30_999)) ==
               (AtFinal(session, e - 30_999, true), [ShowFinalWarning(30)])
            && Ticked(AtFinal(session, e - 30_999, true), Tick(Some(session), e - 999))
                 == (AtFinal(session, e - 999, false), [DismissFinalWarning])
            && Ticked(AtFinal(session, e - 999, false), Tick(Some(session), e)).1 == []
  {
    var e := session.expiresAt;
    assert Ticked(s, Tick(Some(session), e - 30_999)).1 == [ShowFinalWarning(30)];
    assert Ticked(AtFinal(session, e - 30_999, true), Tick(Some(session), e - 999)).1 == [DismissFinalWarning];
  }

  /** From 661 seconds down to 61, in steps of exactly thirty. */
  function Descent(session: SessionSnapshot): seq<Millis> {
    seq(21, i requires 0 <= i < 21 => session.expiresAt - 661_000 + 30_000 * i)
  }

  lemma DescentPrefix(session: SessionSnapshot, times: seq<Millis>)
    requires session.status.Active? && |times| >= 21 && times[..21] == Descent(session)
    ensures OnRung(After(TicksOf(session, times)[..21]), session, session.expiresAt - 61_000)
    ensures Shown(TicksOf(session, times)[..21]) == Ladder(30)[..2]
  {
    var e := session.expiresAt;
    var model := Descent(session) + [e - 31_000, e - 1_000, e];
    var final := LadderPrefix(session, model, 21);
    assert model[20] == Descent(session)[20] == e - 61_000;
    assert TicksOf(session, times)[..21] == TicksOf(session, model)[..21] by {
      assert times[..21] == model[..21];
    }
    assert Ladder(final)[..2] == Ladder(30)[..2];
  }

  /**
    Thirty seconds is the exact limit: with gaps of one millisecond more, some countdown loses a
    rung. This one never says "1 minute".
   */
  lemma LadderNeedsThirtySeconds(session: SessionSnapshot) returns (times: seq<Millis>)
    requires session.status.Active?
    ensures CountsDown(session, times) && Gapped(times, 30_001)
    ensures Shown(TicksOf(session, times)) == Ladder(30)[..2] + [ShowFinalWarning(30), DismissFinalWarning]
  {
    var e := session.expiresAt;
    var rest := [e - 30_999, e - 999, e];
    times := Descent(session) + rest;
    DescentPrefix(session, times);
    assert Gapped(times, 30_001) by {
      assert times[20] == e - 61_000 && times[21] == rest[0] && times[22] == rest[1] && times[23] == rest[2];
    }
    LostRungShown(session, TicksOf(session, times));
  }

  lemma {:induction false} LostRungShown(session: SessionSnapshot, ticks: seq<Tick>)
    requires session.status.Active? && |ticks| == 24
    requires OnRung(After(ticks[..21]), session, session.expiresAt - 61_000)
    requires ticks[21] == Tick(Some(session), session.expiresAt - 30_999)
    requires ticks[22] == Tick(Some(session), session.expiresAt - 999)
    requires ticks[23] == Tick(Some(session), session.expiresAt)
    ensures Shown(ticks) == Shown(ticks[..21]) + [ShowFinalWarning(30), DismissFinalWarning]
  {
    LostRung(After(ticks[..21]), session);
    var shown := Shown(ticks[..21]);
    assert Shown(ticks[..22]) == shown + [ShowFinalWarning(30)] by { ShownStep(ticks, 21); }
    assert Shown(ticks[..23]) == Shown(ticks[..22]) + [DismissFinalWarning] by {
      ShownStep(ticks, 21);
      ShownStep(ticks, 22);
    }
    assert Shown(ticks[..24]) == Shown(ticks[..23]) by {
      ShownStep(ticks, 21);
      ShownStep(ticks, 22);
      ShownStep(ticks, 23);
    }
    assert ticks[..24] == ticks;
  }

  lemma ShownStep(ticks: seq<Tick>, n: nat)
    requires n < |ticks|
    ensures After(ticks[..n + 1]) == Ticked(After(ticks[..n]), ticks[n]).0
    ensures Shown(ticks[..n + 1]) == Shown(ticks[..n]) + Ticked(After(ticks[..n]), ticks[n]).1
  {
    assert ticks[..n + 1][..n] == ticks[..n];
  }
}
