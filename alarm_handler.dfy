/**
 * The arm/stop handoff (src/hooks/useAlarmHandler.ts): arming fixes the day's date
 * key and walk deadline from the alarm's target and writes the day's record; stopping
 * decides between recording a missed walk, starting to track the walk, or, for a
 * nap or when nothing is armed, recording nothing.
 *
 * The scheduler, the walk tracker and the outcome store are the objects the hook
 * uses; the pedometer and storage answers are parameters. Snoozing is not modelled.
 */
module AlarmHandler {
  import opened Wrappers
  import opened Time
  import opened DailyOutcomes
  import opened AlarmScheduler
  import opened WakeWalkSession

  const WalkGoalMinutes: int := 60
  const WalkGoalSteps: int := 100
  const RuleVersion: int := 1

  /** `ArmedSession`. */
  datatype ArmedSession = ArmedSession(dateKey: string, target: Instant, wakeGoal: Instant, mode: Mode)

  /** The session `handleArm` records for a target. */
  function ArmedFor(target: Instant, mode: Mode): (a: ArmedSession)
    ensures a.target == target && a.mode == mode
    ensures a.wakeGoal - a.target == WalkGoalMinutes * MsPerMinute
    ensures a.dateKey == DateKey(target)
  {
    ArmedSession(DateKey(target), target, AddMinutes(target, WalkGoalMinutes), mode)
  }

  /** The record `handleArm` overwrites in alarm mode: no `outcome` field. */
  function ArmRecord(a: ArmedSession): Outcome {
    Outcome(Some(a.dateKey), Some(Alarm), Some(a.target), Some(a.wakeGoal), Some(WalkGoalSteps),
            Some(Null), Some(Null), Some(Value(0)), None, Some(RuleVersion), None)
  }

  /** The patch a stop before the deadline upserts: the stop time, and no `outcome` field. */
  function StopPatch(a: ArmedSession, stopAt: Instant): Outcome {
    Outcome(None, Some(Alarm), Some(a.target), Some(a.wakeGoal), Some(WalkGoalSteps),
            Some(Value(stopAt)), Some(Null), Some(Value(0)), None, Some(RuleVersion), None)
  }

  /** The patch a stop at or after the deadline upserts: the stop patch with outcome 'fail'. */
  function MissedPatch(a: ArmedSession, stopAt: Instant): (patch: Outcome)
    ensures patch == StopPatch(a, stopAt).(outcome := Some(Fail))
  {
    StopPatch(a, stopAt).(outcome := Some(Fail))
  }

  datatype StopPath = RecordNothing | RecordMissed | StartWalk

  /** Which of the three paths `handleAlarmStop` takes. */
  function StopPathFor(armed: Option<ArmedSession>, stopAt: Instant): (path: StopPath)
    ensures path == RecordNothing <==> armed.None? || armed.value.mode != Alarm
    ensures path == RecordMissed <==> armed.Some? && armed.value.mode == Alarm && stopAt >= armed.value.wakeGoal
    ensures path == StartWalk <==> armed.Some? && armed.value.mode == Alarm && stopAt < armed.value.wakeGoal
  {
    if armed.None? || armed.value.mode != Alarm then RecordNothing
    else if stopAt >= armed.value.wakeGoal then RecordMissed
    else StartWalk
  }

  /** The walk `handleAlarmStop` starts: from the stop to the deadline fixed at arm time. */
  function WalkParams(a: ArmedSession, stopAt: Instant): TrackingParams {
    TrackingParams(a.dateKey, stopAt, a.wakeGoal, WalkGoalSteps)
  }

  /**
   * The stored value after `handleAlarmStop` at `stopAt`. The stop's own upsert and
   * the one `startTracking` may make are separate storage round trips, each with
   * its own read and write outcome: `stopIo` and `walkIo`.
   */
  function StoredAfterStop(s: Stored, armed: Option<ArmedSession>, stopAt: Instant, gates: PedometerGates,
                           stopIo: StorageIo, walkIo: StorageIo): Stored {
    match StopPathFor(armed, stopAt)
    case RecordNothing => s
    case RecordMissed => AfterUpsert(s, armed.value.dateKey, MissedPatch(armed.value, stopAt), None, stopAt, stopIo)
    case StartWalk =>
      var a := armed.value;
      Apply(AfterUpsert(s, a.dateKey, StopPatch(a, stopAt), None, stopAt, stopIo),
            StartStep(WalkParams(a, stopAt), stopAt, gates).write, stopAt, walkIo)
  }

  /**
   * Re-arming on a day that already has a record keeps that record's `outcome`:
   * the arm record has no `outcome` field, and the overwrite merges over the old record.
   */
  lemma RearmKeepsOutcome(a: ArmedSession, existing: Outcome, now: Instant)
    ensures OverwriteRecord(a.dateKey, Some(existing), ArmRecord(a), now).outcome == existing.outcome
    ensures OverwriteRecord(a.dateKey, None, ArmRecord(a), now).outcome == None
  {
  }

  /** The stop patch leaves the day's `outcome` to the walk: an upsert of it keeps whatever was there. */
  lemma StopPatchKeepsOutcome(a: ArmedSession, stopAt: Instant, existing: Option<Outcome>, now: Instant)
    ensures UpsertRecord(a.dateKey, existing, None, StopPatch(a, stopAt), now).outcome == existing.GetOr(Empty).outcome
    ensures UpsertRecord(a.dateKey, existing, None, MissedPatch(a, stopAt), now).outcome == Some(Fail)
    ensures UpsertRecord(a.dateKey, existing, None, MissedPatch(a, stopAt), now).achievedAt == Some(Null)
  {
  }

  /**
   * A stop before the deadline hands the walk the deadline fixed at arm time:
   * 60 minutes after the target, and never before the stop.
   */
  lemma WalkDeadlineIsFixedAtArm(target: Instant, stopAt: Instant)
    requires StopPathFor(Some(ArmedFor(target, Alarm)), stopAt) == StartWalk
    ensures var p := WalkParams(ArmedFor(target, Alarm), stopAt);
      p.wakeGoal == target + 60 * MsPerMinute && p.stopAt < p.wakeGoal &&
      p.dateKey == DateKey(target) && p.goalSteps == 100
  {
  }

  /**
   * The two round trips of a stop before the deadline fail independently: with the
   * pedometer unavailable, a lost stop patch still leaves the failure record, and a
   * lost failure record still leaves the stop patch.
   */
  lemma StopRoundTripsAreIndependent(s: Stored, a: ArmedSession, stopAt: Instant, gates: PedometerGates)
    requires StopPathFor(Some(a), stopAt) == StartWalk && !Ready(gates)
    ensures var ok, lost := StorageIo(false, false), StorageIo(false, true);
      StoredAfterStop(s, Some(a), stopAt, gates, lost, ok) == AfterUpsert(s, a.dateKey, UnavailablePatch(), None, stopAt, ok) &&
      StoredAfterStop(s, Some(a), stopAt, gates, ok, lost) == AfterUpsert(s, a.dateKey, StopPatch(a, stopAt), None, stopAt, ok)
  {
  }

  /** The hook instance. */
  class AlarmHandler {
    var armedSession: Option<ArmedSession>
    const scheduler: Scheduler
    const walk: WalkSessionTracker
    const store: OutcomeStore

    /** The walk tracker writes into the same store the handler does. */
    predicate Valid()
      reads this
    {
      walk.store == store
    }

    constructor (scheduler: Scheduler, walk: WalkSessionTracker)
      ensures this.scheduler == scheduler && this.walk == walk && this.store == walk.store
      ensures Valid() && armedSession == None
    {
      this.scheduler := scheduler;
      this.walk := walk;
      this.store := walk.store;
      armedSession := None;
    }

    /** `handleArm` for the selected time and mode, run at `now`. */
    method HandleArm(selectedHour: real, selectedMinute: real, mode: Mode, now: Instant,
                     settings: AlarmScheduler.AlarmSettings, scheduleIo: ScheduleIo, storageIo: StorageIo)
      returns (result: Result<Instant, ScheduleError>)
      requires Valid()
      modifies this, scheduler, walk, store
      ensures Valid()
      ensures walk.State() == Cleared
      ensures var expected := ScheduleStep(scheduler.platform, old(scheduler.State()), selectedHour, selectedMinute,
                                           now, settings, scheduleIo);
        result == expected.result && scheduler.State() == expected.step.state &&
        scheduler.effects == old(scheduler.effects) + expected.step.effects
      // A failed arm records nothing: the armed session and the store are as they were.
      ensures result.Err? ==> armedSession == old(armedSession) && store.stored == old(store.stored)
      // A successful arm fixes the session from the target, and writes the record only in alarm mode.
      ensures result.Ok? ==>
        var a := ArmedFor(result.value, mode);
        armedSession == Some(a) &&
        store.stored == (if mode == Alarm then AfterOverwrite(old(store.stored), a.dateKey, ArmRecord(a), now, storageIo)
                         else old(store.stored))
    {
      walk.ResetSession();
      result := scheduler.ScheduleAlarm(selectedHour, selectedMinute, now, settings, scheduleIo);
      if result.Err? {
        return;
      }
      var target := result.value;
      var wakeGoal := AddMinutes(target, WalkGoalMinutes);
      var dateKey := DateKey(target);
      armedSession := Some(ArmedSession(dateKey, target, wakeGoal, mode));
      if mode == Alarm {
        var _ := store.Overwrite(dateKey, ArmRecord(armedSession.value), now, storageIo);
      }
    }

    /** `handleAlarmStop` at `stopAt`: `stopIo` answers the stop's upsert, `walkIo` the tracker's. */
    method HandleAlarmStop(stopAt: Instant, gates: PedometerGates, stopIo: StorageIo, walkIo: StorageIo)
      requires Valid()
      modifies this, walk, store
      ensures Valid()
      // Every path clears the armed session.
      ensures armedSession == None
      ensures store.stored == StoredAfterStop(old(store.stored), old(armedSession), stopAt, gates, stopIo, walkIo)
      ensures StopPathFor(old(armedSession), stopAt) != StartWalk ==> walk.State() == Cleared
      ensures StopPathFor(old(armedSession), stopAt) == StartWalk ==>
        walk.State() == StartStep(WalkParams(old(armedSession).value, stopAt), stopAt, gates).state
    {
      var armed := armedSession;
      if armed.None? || armed.value.mode != Alarm {
        armedSession := None;
        walk.ResetSession();
        return;
      }
      var a := armed.value;
      if stopAt >= a.wakeGoal {
        var _ := store.Upsert(a.dateKey, MissedPatch(a, stopAt), None, stopAt, stopIo);
        armedSession := None;
        walk.ResetSession();
        return;
      }
      var _ := store.Upsert(a.dateKey, StopPatch(a, stopAt), None, stopAt, stopIo);
      walk.StartTracking(WalkParams(a, stopAt), stopAt, gates, walkIo);
      armedSession := None;
    }

    /** `handleStopAlarm`: `stopAlarm`, whose failures are swallowed, then `handleAlarmStop`. */
    method HandleStopAlarm(stopAt: Instant, gates: PedometerGates, stopIo: StorageIo, walkIo: StorageIo)
      requires Valid()
      modifies this, scheduler, walk, store
      ensures Valid()
      ensures armedSession == None
      ensures scheduler.State() == StopStep(scheduler.platform, old(scheduler.State())).state
      ensures scheduler.effects == old(scheduler.effects) + StopStep(scheduler.platform, old(scheduler.State())).effects
      ensures store.stored == StoredAfterStop(old(store.stored), old(armedSession), stopAt, gates, stopIo, walkIo)
      ensures StopPathFor(old(armedSession), stopAt) != StartWalk ==> walk.State() == Cleared
      ensures StopPathFor(old(armedSession), stopAt) == StartWalk ==>
        walk.State() == StartStep(WalkParams(old(armedSession).value, stopAt), stopAt, gates).state
    {
      scheduler.StopAlarm();
      HandleAlarmStop(stopAt, gates, stopIo, walkIo);
    }
  }
}
