/**
 * The walk-tracking poll machine (src/hooks/useWakeWalkSession.ts): after the alarm
 * is stopped, the step count since the stop is polled every 15 seconds until the
 * goal is reached (success) or the walk deadline passes (fail), and the result is
 * upserted into the daily-outcome store.
 *
 * Each timer firing runs one whole `runCheck`, the pedometer's answer given as a
 * parameter. `startTracking` ends with its first check launched: the model records
 * that check as due at the start time, and the caller runs it as the next step.
 */
module WakeWalkSession {
  import opened Wrappers
  import opened Time
  import opened DailyOutcomes

  const CheckIntervalMs: int := 15000

  datatype WalkStatus = Tracking | Succeeded | Failed

  /** `WalkSessionState`; `achievedAt` is absent while tracking. */
  datatype WalkSession = WalkSession(
    dateKey: string,
    steps: int,
    goalSteps: int,
    remainingMs: int,
    status: WalkStatus,
    stopAt: Instant,
    wakeGoal: Instant,
    achievedAt: Option<Nullable<Instant>>)

  /** `StartTrackingParams`. */
  datatype TrackingParams = TrackingParams(dateKey: string, stopAt: Instant, wakeGoal: Instant, goalSteps: int)

  /**
   * `session`, the due time of the pending check (`timeoutRef`, or the first check
   * `startTracking` launches), and `activeRef`.
   */
  datatype WalkState = WalkState(session: Option<WalkSession>, nextCheckAt: Option<Instant>, active: Option<TrackingParams>)

  /** The state `resetSession` leaves, and the hook's initial state. */
  const Cleared: WalkState := WalkState(None, None, None)

  /** `Math.max(wakeGoal - now, 0)`. */
  function RemainingMs(p: TrackingParams, now: Instant): (r: int)
    ensures r >= 0 && r >= p.wakeGoal - now
    ensures r == 0 <==> now >= p.wakeGoal
    ensures now < p.wakeGoal ==> r == p.wakeGoal - now
  {
    if p.wakeGoal - now > 0 then p.wakeGoal - now else 0
  }

  /** The session shown while tracking. */
  function TrackingSession(p: TrackingParams, steps: int, now: Instant): WalkSession {
    WalkSession(p.dateKey, steps, p.goalSteps, RemainingMs(p, now), Tracking, p.stopAt, p.wakeGoal, None)
  }

  datatype Verdict = GoalReached | DeadlinePassed | KeepPolling

  /** What one check decides: the goal is checked before the deadline. */
  function CheckVerdict(p: TrackingParams, steps: int, now: Instant): (v: Verdict)
    ensures v == GoalReached <==> steps >= p.goalSteps
    ensures v == DeadlinePassed <==> steps < p.goalSteps && now >= p.wakeGoal
    ensures v == KeepPolling <==> steps < p.goalSteps && now < p.wakeGoal
  {
    if steps >= p.goalSteps then GoalReached
    else if RemainingMs(p, now) <= 0 then DeadlinePassed
    else KeepPolling
  }

  /** The patch `finalizeSession` upserts: these three fields and nothing else. */
  function FinalPatch(result: OutcomeResult, steps: int, achievedAt: Option<Instant>): (patch: Outcome)
    ensures patch.stepsInWindow == Some(Value(steps)) && patch.outcome == Some(result)
    ensures patch.achievedAt == Some(if achievedAt.Some? then Value(achievedAt.value) else Null)
    ensures patch.(stepsInWindow := None, achievedAt := None, outcome := None) == Empty
  {
    Empty.(stepsInWindow := Some(Value(steps)),
           achievedAt := Some(if achievedAt.Some? then Value(achievedAt.value) else Null),
           outcome := Some(result))
  }

  /** An upsert of `patch` under `key`, to be made against the store. */
  datatype Write = Write(key: string, patch: Outcome)

  datatype StepResult = StepResult(state: WalkState, write: Option<Write>)

  /** The stored value after a step's write, if it makes one. */
  function Apply(s: Stored, write: Option<Write>, now: Instant, io: StorageIo): Stored {
    match write
    case None => s
    case Some(w) => AfterUpsert(s, w.key, w.patch, None, now, io)
  }

  /**
   * `finalizeSession`: upsert the result; afterwards no session, no timer and no
   * active params. The terminal session is set and cleared within the same step.
   */
  function FinalizeStep(p: TrackingParams, result: OutcomeResult, steps: int, achievedAt: Option<Instant>): StepResult {
    StepResult(Cleared, Some(Write(p.dateKey, FinalPatch(result, steps, achievedAt))))
  }

  /** One `runCheck`; `stepRead` is None when the read rejects or reports no count. */
  function CheckStep(w: WalkState, now: Instant, stepRead: Option<int>): (r: StepResult)
    // A check with no active params (a stale poll after a reset) does nothing.
    ensures w.active.None? ==> r == StepResult(w, None)
    ensures w.active.Some? ==>
      var p := w.active.value; var steps := stepRead.GetOr(0);
      match CheckVerdict(p, steps, now)
      case GoalReached => r == FinalizeStep(p, Success, steps, Some(now))
      case DeadlinePassed => r == FinalizeStep(p, Fail, steps, None)
      case KeepPolling =>
        r.write.None? && r.state.active == w.active &&
        r.state.session == Some(TrackingSession(p, steps, now)) &&
        r.state.nextCheckAt == Some(now + CheckIntervalMs)
    // The next poll is scheduled exactly when neither resolution fired.
    ensures w.active.Some? ==> (r.state.nextCheckAt.Some? <==> r.write.None?)
  {
    if w.active.None? then StepResult(w, None)
    else
      var p := w.active.value;
      var steps := stepRead.GetOr(0);
      if steps >= p.goalSteps then FinalizeStep(p, Success, steps, Some(now))
      else if RemainingMs(p, now) <= 0 then FinalizeStep(p, Fail, steps, None)
      else StepResult(WalkState(Some(TrackingSession(p, steps, now)), Some(now + CheckIntervalMs), w.active), None)
  }

  /** What the pedometer gateway answers while `startTracking` runs. */
  datatype PedometerGates = PedometerGates(
    hasNativeModule: bool,
    isAvailable: bool,        // false also when `isAvailableAsync` rejects
    permissionGranted: bool)  // false also when `requestPermissionsAsync` rejects

  predicate Ready(g: PedometerGates) {
    g.hasNativeModule && g.isAvailable && g.permissionGranted
  }

  /** The patch written when tracking cannot start. */
  function UnavailablePatch(): (patch: Outcome)
    ensures patch == FinalPatch(Fail, 0, None)
  {
    FinalPatch(Fail, 0, None)
  }

  /** `startTracking`, up to the launch of its first check. */
  function StartStep(p: TrackingParams, now: Instant, gates: PedometerGates): (r: StepResult)
    ensures !Ready(gates) ==> r == StepResult(Cleared, Some(Write(p.dateKey, UnavailablePatch())))
    ensures Ready(gates) ==>
      r.write.None? && r.state.active == Some(p) && r.state.nextCheckAt == Some(now) &&
      r.state.session == Some(TrackingSession(p, 0, now))
  {
    if !Ready(gates) then StepResult(Cleared, Some(Write(p.dateKey, UnavailablePatch())))
    else StepResult(WalkState(Some(TrackingSession(p, 0, now)), Some(now), Some(p)), None)
  }

  /** After a reset, a poll that fires changes nothing and writes nothing. */
  lemma StalePollIsIgnored(now: Instant, stepRead: Option<int>)
    ensures CheckStep(Cleared, now, stepRead) == StepResult(Cleared, None)
  {
  }

  /** A failed read counts as zero steps: it resolves only at the deadline (for a positive goal). */
  lemma FailedReadCountsAsZero(w: WalkState, now: Instant)
    requires w.active.Some? && w.active.value.goalSteps > 0
    ensures var r := CheckStep(w, now, None);
      (r.write.Some? <==> now >= w.active.value.wakeGoal) &&
      (r.write.Some? ==> r.write.value.patch == FinalPatch(Fail, 0, None))
  {
  }

  /** Reaching the goal counts as success even when the check runs after the deadline. */
  lemma GoalBeatsDeadline(w: WalkState, now: Instant, steps: int)
    requires w.active.Some? && steps >= w.active.value.goalSteps && now >= w.active.value.wakeGoal
    ensures CheckStep(w, now, Some(steps)).write ==
      Some(Write(w.active.value.dateKey, FinalPatch(Success, steps, Some(now))))
  {
  }

  /** Every check at or after the deadline ends the session. */
  lemma DeadlineEndsTracking(w: WalkState, now: Instant, stepRead: Option<int>)
    requires w.active.Some? && now >= w.active.value.wakeGoal
    ensures CheckStep(w, now, stepRead).state == Cleared
    ensures CheckStep(w, now, stepRead).write.Some?
  {
  }

  /**
   * Polling from a start: with a step count that stays at zero, every check before
   * the deadline keeps the session active and schedules the next one 15 s later
   * (`DeadlineEndsTracking` covers the check at the deadline).
   */
  lemma {:induction false} PollingUntilDeadline(p: TrackingParams, now: Instant, gates: PedometerGates, polls: nat)
    requires Ready(gates) && p.goalSteps > 0 && now + polls * CheckIntervalMs < p.wakeGoal
    ensures var w := Polled(StartStep(p, now, gates).state, polls);
      w.active == Some(p) && w.nextCheckAt == Some(now + polls * CheckIntervalMs)
    decreases polls
  {
    if polls > 0 {
      PollingUntilDeadline(p, now, gates, polls - 1);
    }
  }

  /** The state after `polls` checks, each run when due and each reading zero steps. */
  function Polled(w: WalkState, polls: nat): WalkState
    decreases polls
  {
    if polls == 0 then w
    else
      var before := Polled(w, polls - 1);
      if before.nextCheckAt.None? then before
      else CheckStep(before, before.nextCheckAt.value, Some(0)).state
  }

  /** The hook instance: session state, pending check and active params, over the outcome store. */
  class WalkSessionTracker {
    var session: Option<WalkSession>
    var nextCheckAt: Option<Instant>
    var active: Option<TrackingParams>
    const store: OutcomeStore

    function State(): WalkState
      reads this
    {
      WalkState(session, nextCheckAt, active)
    }

    constructor (store: OutcomeStore)
      ensures this.store == store && State() == Cleared
    {
      this.store := store;
      session := None;
      nextCheckAt := None;
      active := None;
    }

    /** `clearTimer`. */
    method ClearTimer()
      modifies this
      ensures State() == old(State()).(nextCheckAt := None)
    {
      nextCheckAt := None;
    }

    /** `resetSession`. */
    method ResetSession()
      modifies this
      ensures State() == Cleared
    {
      active := None;
      ClearTimer();
      session := None;
    }

    method FinalizeSession(p: TrackingParams, result: OutcomeResult, steps: int, achievedAt: Option<Instant>,
                           now: Instant, io: StorageIo)
      modifies this, store
      ensures var r := FinalizeStep(p, result, steps, achievedAt);
        State() == r.state && store.stored == Apply(old(store.stored), r.write, now, io)
    {
      var _ := store.Upsert(p.dateKey, FinalPatch(result, steps, achievedAt), None, now, io);
      session := Some(WalkSession(p.dateKey, steps, p.goalSteps, RemainingMs(p, now),
                                  if result == Success then Succeeded else Failed, p.stopAt, p.wakeGoal,
                                  Some(if achievedAt.Some? then Value(achievedAt.value) else Null)));
      ClearTimer();
      active := None;
      session := None;
    }

    /** `runCheck`, run when its timer fires at `now`. */
    method RunCheck(now: Instant, stepRead: Option<int>, io: StorageIo)
      modifies this, store
      ensures var r := CheckStep(old(State()), now, stepRead);
        State() == r.state && store.stored == Apply(old(store.stored), r.write, now, io)
    {
      if active.None? {
        return;
      }
      var p := active.value;
      var steps := stepRead.GetOr(0);
      var remaining := RemainingMs(p, now);
      session := Some(WalkSession(p.dateKey, steps, p.goalSteps, remaining, Tracking, p.stopAt, p.wakeGoal, None));
      if steps >= p.goalSteps {
        FinalizeSession(p, Success, steps, Some(now), now, io);
        return;
      }
      if remaining <= 0 {
        FinalizeSession(p, Fail, steps, None, now, io);
        return;
      }
      nextCheckAt := Some(now + CheckIntervalMs);
    }

    /** `startTracking`: reset, check the pedometer, then either fail the day or begin tracking. */
    method StartTracking(p: TrackingParams, now: Instant, gates: PedometerGates, io: StorageIo)
      modifies this, store
      ensures var r := StartStep(p, now, gates);
        State() == r.state && store.stored == Apply(old(store.stored), r.write, now, io)
    {
      ResetSession();
      if !Ready(gates) {
        var _ := store.Upsert(p.dateKey, UnavailablePatch(), None, now, io);
        return;
      }
      active := Some(p);
      session := Some(TrackingSession(p, 0, now));
      nextCheckAt := Some(now);
    }
  }
}
