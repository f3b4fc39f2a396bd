/**
 * The alarm status machine (src/hooks/useAlarmScheduler.ts): the `status`,
 * `scheduledAt` and pending-notification-id state, `stopAlarm`, `scheduleAlarm`,
 * and the listeners for the native alarm's events and for notifications.
 *
 * The notification service and the native alarm module are gateways the model
 * cannot see: what they return is a parameter, and every call made to them is
 * appended to an effect log. A transition is a pure function from the old state
 * to the new state and the calls made; the class's methods are proved to follow it.
 */
module AlarmScheduler {
  import opened Wrappers
  import opened Time
  import Sounds

  datatype AlarmStatus = Idle | Armed | Ringing

  datatype Platform = IOS | Android

  /** `ALARM_CATEGORY` and `ALARM_STOP_ACTION_ID` (src/utils/notifications.ts). */
  const AlarmCategory: string := "alarm-category"
  const StopActionId: string := "STOP_ALARM"

  /** `status`, `scheduledAt` and `scheduledNotificationIdRef.current`. */
  datatype SchedulerState = SchedulerState(status: AlarmStatus, scheduledAt: Option<Instant>, notificationId: Option<string>)

  const Initial: SchedulerState := SchedulerState(Idle, None, None)

  /** A call into a gateway. */
  datatype Effect =
    | CancelNotification(id: string)
    | StopNativeAlarm
    | ScheduleNotification(at: Instant, category: string, sound: Option<string>, androidChannel: bool)
    | StartNativeAlarm(at: Instant, soundFileName: string, durationMinutes: real, vibrationEnabled: bool)
    | PlayHaptics

  /** A transition's new state and the gateway calls it made, in order. */
  datatype Step = Step(state: SchedulerState, effects: seq<Effect>)

  // ---------------------------------------------------------------- sound files

  /** `SOUND_FILE_MAP`: only the default sound has a file of its own. */
  const DefaultSoundFile: string := "chiangmai_bird.m4a"

  function SoundFileMap(): map<string, string> {
    map[Sounds.DefaultSoundId() := DefaultSoundFile]
  }

  /** `soundFileName`: the selected sound's file, falling back to the default sound's. */
  function SoundFileFor(selectedSoundId: string): (file: string)
    ensures file == DefaultSoundFile
  {
    var files := SoundFileMap();
    if selectedSoundId in files then files[selectedSoundId] else files[Sounds.DefaultSoundId()]
  }

  // ---------------------------------------------------------------- target time

  /** JavaScript's `ToIntegerOrInfinity` on a finite number: truncation toward zero. */
  function Truncate(x: real): (i: int)
    ensures 0.0 <= x ==> 0 <= i && i as real <= x < i as real + 1.0
    ensures x < 0.0 ==> i <= 0 && i as real - 1.0 < x <= i as real
  {
    if x >= 0.0 then x.Floor else -((-x).Floor)
  }

  /**
   * The target of `scheduleAlarm`: today at `hour:minute:00.000`, or the same time
   * tomorrow when that is not later than `now`. Out-of-range fields roll over as
   * `setHours` does.
   */
  function AlarmTarget(now: Instant, hour: int, minute: int): (target: Instant)
    ensures hour * 60 + minute >= 0 ==> now < target
    ensures var today := AtTimeOfDay(DayNumber(now), hour, minute, 0, 0);
      target == (if today <= now then today + MsPerDay else today)
  {
    var today := AtTimeOfDay(DayNumber(now), hour, minute, 0, 0);
    if today <= now then today + MsPerDay else today
  }

  /**
   * For an hour and a minute in range, the target carries exactly those clock
   * fields, is strictly after `now` and at most a day after it, and falls today
   * exactly when today's time is still ahead.
   */
  lemma AlarmTargetProperties(now: Instant, hour: int, minute: int)
    requires 0 <= hour < 24 && 0 <= minute < 60
    ensures var target := AlarmTarget(now, hour, minute);
      now < target <= now + MsPerDay &&
      Hours(target) == hour && Minutes(target) == minute && Seconds(target) == 0 && Millis(target) == 0 &&
      (DayNumber(target) == DayNumber(now) <==> AtTimeOfDay(DayNumber(now), hour, minute, 0, 0) > now) &&
      (DayNumber(target) != DayNumber(now) ==> DayNumber(target) == DayNumber(now) + 1)
  {
    var day := DayNumber(now);
    FieldsOfAtTimeOfDay(day, hour, minute);
    FieldsOfAtTimeOfDay(day + 1, hour, minute);
    assert AtTimeOfDay(day + 1, hour, minute, 0, 0) == AtTimeOfDay(day, hour, minute, 0, 0) + MsPerDay;
    assert StartOfDay(now) == day * MsPerDay;
  }

  // ---------------------------------------------------------------- stopping

  /** `!id`: no id, or the empty string. */
  predicate NoPendingNotification(id: Option<string>) {
    id.None? || id == Some("")
  }

  /** `cancelScheduledNotification`: a falsy id is left alone; any other is cancelled and cleared. */
  function CancelStep(s: SchedulerState): (r: Step)
    ensures NoPendingNotification(r.state.notificationId)
    ensures r.state.status == s.status && r.state.scheduledAt == s.scheduledAt
    ensures NoPendingNotification(s.notificationId) ==> r == Step(s, [])
    ensures !NoPendingNotification(s.notificationId) ==>
      r.state.notificationId == None && r.effects == [CancelNotification(s.notificationId.value)]
  {
    if NoPendingNotification(s.notificationId) then Step(s, [])
    else Step(s.(notificationId := None), [CancelNotification(s.notificationId.value)])
  }

  /**
   * `stopAlarm`: cancel the pending notification, stop the native alarm on iOS, and
   * end idle with no time. A failing cancel or native stop is swallowed.
   */
  function StopStep(platform: Platform, s: SchedulerState): (r: Step)
    ensures r.state.status == Idle && r.state.scheduledAt == None
    ensures NoPendingNotification(r.state.notificationId)
    ensures r.effects == CancelStep(s).effects + (if platform == IOS then [StopNativeAlarm] else [])
  {
    var c := CancelStep(s);
    Step(c.state.(scheduledAt := None, status := Idle), c.effects + if platform == IOS then [StopNativeAlarm] else [])
  }

  /** Stopping twice is stopping once, and the second stop cancels nothing. */
  lemma StopAlarmIdempotent(platform: Platform, s: SchedulerState)
    ensures var once := StopStep(platform, s).state;
      StopStep(platform, once).state == once &&
      CancelStep(once).effects == []
  {
  }

  // ---------------------------------------------------------------- scheduling

  /** The settings `scheduleAlarm` reads from the alarm settings context. */
  datatype AlarmSettings = AlarmSettings(ringDurationMinutes: real, selectedSoundId: string, vibrationEnabled: bool)

  /** What the gateways answer during `scheduleAlarm`. */
  datatype ScheduleIo = ScheduleIo(
    setupFails: bool,                   // `ensureNotificationSetup` rejects
    permissionGranted: bool,            // granted already, or on request
    notificationId: Option<string>,     // the scheduled id; None: scheduling rejects
    nativeModulePresent: bool)          // whether `startNativeAlarm` finds the module

  datatype ScheduleError = SetupFailed | PermissionDenied | NativeModuleMissing

  datatype ScheduleOutcome = ScheduleOutcome(step: Step, result: Result<Instant, ScheduleError>)

  /** The notification `scheduleAlarm` asks for: sound 'default' only with vibration on. */
  function NotificationRequest(platform: Platform, target: Instant, vibrationEnabled: bool): Effect {
    ScheduleNotification(target, AlarmCategory, if vibrationEnabled then Some("default") else None, platform == Android)
  }

  /** `scheduleAlarm(hour, minute)` run to completion at `now`. */
  function ScheduleStep(platform: Platform, s: SchedulerState, hour: real, minute: real, now: Instant,
                        settings: AlarmSettings, io: ScheduleIo): (r: ScheduleOutcome)
    // It resolves exactly when setup, permission and (on iOS) the native module all succeed,
    ensures r.result.Ok? <==>
      !io.setupFails && io.permissionGranted && (platform == Android || io.nativeModulePresent)
    // with the target, now armed for it,
    ensures r.result.Ok? ==>
      r.result.value == AlarmTarget(now, Truncate(hour), Truncate(minute)) &&
      r.step.state.status == Armed && r.step.state.scheduledAt == Some(r.result.value)
    // and otherwise leaves the alarm idle with no time.
    ensures r.result.Err? ==> r.step.state.status == Idle && r.step.state.scheduledAt == None
    // A failed setup or refused permission leaves exactly what `stopAlarm` left.
    ensures io.setupFails || !io.permissionGranted ==> r.step == StopStep(platform, s)
    // Past those, the calls are exactly the stop's, the notification request and, when the
    // schedule succeeds on iOS, the native start; on Android, or with the native module
    // missing, nothing follows the request. The id the request yields replaces the cleared
    // one; a failed request is swallowed.
    ensures !io.setupFails && io.permissionGranted ==>
      var target := AlarmTarget(now, Truncate(hour), Truncate(minute));
      r.step.effects == StopStep(platform, s).effects + [NotificationRequest(platform, target, settings.vibrationEnabled)] +
        (if r.result.Ok? && platform == IOS
         then [StartNativeAlarm(target, DefaultSoundFile, settings.ringDurationMinutes, settings.vibrationEnabled)]
         else []) &&
      r.step.state.notificationId == io.notificationId.Or(StopStep(platform, s).state.notificationId)
    // The native alarm is started last, with the fallback sound file.
    ensures r.result.Ok? && platform == IOS ==>
      r.step.effects[|r.step.effects| - 1] ==
        StartNativeAlarm(r.result.value, DefaultSoundFile, settings.ringDurationMinutes, settings.vibrationEnabled)
  {
    var stop := StopStep(platform, s);
    if io.setupFails then ScheduleOutcome(stop, Err(SetupFailed))
    else if !io.permissionGranted then ScheduleOutcome(stop, Err(PermissionDenied))
    else
      var target := AlarmTarget(now, Truncate(hour), Truncate(minute));
      var requested := stop.effects + [NotificationRequest(platform, target, settings.vibrationEnabled)];
      var withId := if io.notificationId.Some? then stop.state.(notificationId := io.notificationId) else stop.state;
      if platform == IOS && !io.nativeModulePresent then
        ScheduleOutcome(Step(withId, requested), Err(NativeModuleMissing))
      else
        var started := requested +
          if platform == IOS then
            [StartNativeAlarm(target, SoundFileFor(settings.selectedSoundId), settings.ringDurationMinutes,
                              settings.vibrationEnabled)]
          else [];
        ScheduleOutcome(Step(withId.(scheduledAt := Some(target), status := Armed), started), Ok(target))
  }

  /** For a selection a valid time-selection record admits, the armed time lies in the next day. */
  lemma ScheduledTimeIsAhead(platform: Platform, s: SchedulerState, hour: real, minute: real, now: Instant,
                             settings: AlarmSettings, io: ScheduleIo)
    requires 0.0 <= hour < 24.0 && 0.0 <= minute < 60.0
    requires ScheduleStep(platform, s, hour, minute, now, settings, io).result.Ok?
    ensures var target := ScheduleStep(platform, s, hour, minute, now, settings, io).result.value;
      now < target <= now + MsPerDay &&
      Hours(target) == hour.Floor && Minutes(target) == minute.Floor && Seconds(target) == 0 && Millis(target) == 0
  {
    AlarmTargetProperties(now, Truncate(hour), Truncate(minute));
  }

  // ---------------------------------------------------------------- listeners

  /** The events the native alarm module emits. */
  datatype NativeEvent =
    | AlarmTriggered
    | AlarmStopped
    | AlarmArmed(scheduledAt: Option<Instant>)   // None: no (or an empty) `scheduledAt` in the payload
    | AlarmError

  /** The native listeners, registered on iOS only. */
  function NativeEventStep(platform: Platform, s: SchedulerState, e: NativeEvent, vibrationEnabled: bool): (r: Step)
    ensures platform == Android ==> r == Step(s, [])
    // Triggered: ringing, no time, the pending notification cancelled; haptics with vibration on.
    ensures platform == IOS && e.AlarmTriggered? ==>
      r.state.status == Ringing && r.state.scheduledAt == None && NoPendingNotification(r.state.notificationId) &&
      r.effects == CancelStep(s).effects + (if vibrationEnabled then [PlayHaptics] else [])
    // Stopped: idle with no time, the pending notification cancelled.
    ensures platform == IOS && e.AlarmStopped? ==>
      r.state.status == Idle && r.state.scheduledAt == None && NoPendingNotification(r.state.notificationId) &&
      r.effects == CancelStep(s).effects
    // Error: idle with no time, the pending notification left in place.
    ensures platform == IOS && e.AlarmError? ==>
      r == Step(SchedulerState(Idle, None, s.notificationId), [])
    // Armed: adopts the payload's time only when there is one.
    ensures platform == IOS && e.AlarmArmed? && e.scheduledAt.Some? ==>
      r == Step(SchedulerState(Armed, e.scheduledAt, s.notificationId), [])
    ensures platform == IOS && e.AlarmArmed? && e.scheduledAt.None? ==> r == Step(s, [])
  {
    if platform == Android then Step(s, [])
    else match e
      case AlarmTriggered =>
        var c := CancelStep(s);
        Step(c.state.(scheduledAt := None, status := Ringing), c.effects + if vibrationEnabled then [PlayHaptics] else [])
      case AlarmStopped =>
        var c := CancelStep(s);
        Step(c.state.(status := Idle, scheduledAt := None), c.effects)
      case AlarmArmed(at) =>
        if at.Some? then Step(s.(scheduledAt := at, status := Armed), []) else Step(s, [])
      case AlarmError =>
        Step(s.(status := Idle, scheduledAt := None), [])
  }

  /** The received-notification listener: an alarm notification means ringing, anything else nothing. */
  function NotificationReceivedStep(s: SchedulerState, category: string): (r: SchedulerState)
    ensures category == AlarmCategory ==> r == SchedulerState(Ringing, None, s.notificationId)
    ensures category != AlarmCategory ==> r == s
  {
    if category == AlarmCategory then s.(status := Ringing, scheduledAt := None) else s
  }

  /** The response listener: the stop action on an alarm notification runs `stopAlarm`. */
  function NotificationResponseStep(platform: Platform, s: SchedulerState, category: string, action: string): (r: Step)
    ensures category == AlarmCategory && action == StopActionId ==> r == StopStep(platform, s)
    ensures !(category == AlarmCategory && action == StopActionId) ==> r == Step(s, [])
  {
    if category != AlarmCategory then Step(s, [])
    else if action == StopActionId then StopStep(platform, s)
    else Step(s, [])
  }

  // ---------------------------------------------------------------- the hook instance

  class Scheduler {
    const platform: Platform
    var status: AlarmStatus
    var scheduledAt: Option<Instant>
    var notificationId: Option<string>
    /** Every gateway call made so far, in order. */
    var effects: seq<Effect>

    function State(): SchedulerState
      reads this
    {
      SchedulerState(status, scheduledAt, notificationId)
    }

    constructor (platform: Platform)
      ensures this.platform == platform && State() == Initial && effects == []
    {
      this.platform := platform;
      status := Idle;
      scheduledAt := None;
      notificationId := None;
      effects := [];
    }

    method CancelScheduledNotification()
      modifies this
      ensures State() == CancelStep(old(State())).state
      ensures effects == old(effects) + CancelStep(old(State())).effects
    {
      if !NoPendingNotification(notificationId) {
        effects := effects + [CancelNotification(notificationId.value)];
        notificationId := None;
      }
    }

    method StopAlarm()
      modifies this
      ensures State() == StopStep(platform, old(State())).state
      ensures effects == old(effects) + StopStep(platform, old(State())).effects
    {
      CancelScheduledNotification();
      if platform == IOS {
        effects := effects + [StopNativeAlarm];
      }
      scheduledAt := None;
      status := Idle;
    }

    method ScheduleAlarm(selectedHour: real, selectedMinute: real, now: Instant, settings: AlarmSettings, io: ScheduleIo)
      returns (result: Result<Instant, ScheduleError>)
      modifies this
      ensures var expected := ScheduleStep(platform, old(State()), selectedHour, selectedMinute, now, settings, io);
        result == expected.result &&
        State() == expected.step.state &&
        effects == old(effects) + expected.step.effects
    {
      StopAlarm();
      if io.setupFails {
        return Err(SetupFailed);
      }
      if !io.permissionGranted {
        return Err(PermissionDenied);
      }
      var target := AlarmTarget(now, Truncate(selectedHour), Truncate(selectedMinute));
      effects := effects + [NotificationRequest(platform, target, settings.vibrationEnabled)];
      if io.notificationId.Some? {
        notificationId := io.notificationId;
      }
      if platform == IOS {
        if !io.nativeModulePresent {
          return Err(NativeModuleMissing);
        }
        effects := effects + [StartNativeAlarm(target, SoundFileFor(settings.selectedSoundId),
                                               settings.ringDurationMinutes, settings.vibrationEnabled)];
      }
      scheduledAt := Some(target);
      status := Armed;
      result := Ok(target);
    }

    method OnNativeEvent(e: NativeEvent, vibrationEnabled: bool)
      modifies this
      ensures State() == NativeEventStep(platform, old(State()), e, vibrationEnabled).state
      ensures effects == old(effects) + NativeEventStep(platform, old(State()), e, vibrationEnabled).effects
    {
      if platform == IOS {
        match e
        case AlarmTriggered =>
          CancelScheduledNotification();
          scheduledAt := None;
          status := Ringing;
          if vibrationEnabled {
            effects := effects + [PlayHaptics];
          }
        case AlarmStopped =>
          CancelScheduledNotification();
          status := Idle;
          scheduledAt := None;
        case AlarmArmed(at) =>
          if at.Some? {
            scheduledAt := at;
            status := Armed;
          }
        case AlarmError =>
          status := Idle;
          scheduledAt := None;
      }
    }

    method OnNotificationReceived(category: string)
      modifies this
      ensures State() == NotificationReceivedStep(old(State()), category)
      ensures effects == old(effects)
    {
      if category == AlarmCategory {
        status := Ringing;
        scheduledAt := None;
      }
    }

    method OnNotificationResponse(category: string, action: string)
      modifies this
      ensures State() == NotificationResponseStep(platform, old(State()), category, action).state
      ensures effects == old(effects) + NotificationResponseStep(platform, old(State()), category, action).effects
    {
      if category == AlarmCategory && action == StopActionId {
        StopAlarm();
      }
    }

    /** The unmount cleanup runs `stopAlarm`. */
    method Unmount()
      modifies this
      ensures State() == StopStep(platform, old(State())).state
      ensures effects == old(effects) + StopStep(platform, old(State())).effects
    {
      StopAlarm();
    }
  }
}
