/**
 * The persisted alarm settings (src/context/AlarmSettingsContext.tsx): a record of
 * seven fields held in `useAsyncStorageState`, its validator, its defaults and
 * the seven setters, each of which replaces one field.
 */
module AlarmSettingsContext {
  import opened Wrappers
  import opened Json
  import opened AsyncStorageState
  import Sounds

  datatype AlarmSettings = AlarmSettings(
    ringDurationMinutes: real,
    selectedSoundId: string,
    vibrationEnabled: bool,
    soundEnabled: bool,
    snoozeEnabled: bool,
    snoozeDurationMinutes: real,
    snoozeRepeatCount: real)

  const StorageKey: string := "wakewalk:alarm-settings"
  const DefaultRingDurationMinutes: real := 3.0
  const RingDurationOptionsMinutes: seq<real> := [1.0, 3.0, 5.0]
  const DefaultVibrationEnabled: bool := true
  const DefaultSoundEnabled: bool := true
  const DefaultSnoozeEnabled: bool := false
  const DefaultSnoozeDurationMinutes: real := 3.0
  const DefaultSnoozeRepeatCount: real := 3.0

  /** `ALARM_SOUND_IDS`. */
  function AlarmSoundIds(): seq<string> {
    Sounds.BuiltInSoundIds()
  }

  function Defaults(): AlarmSettings {
    AlarmSettings(DefaultRingDurationMinutes, Sounds.DefaultSoundId(), DefaultVibrationEnabled,
                  DefaultSoundEnabled, DefaultSnoozeEnabled, DefaultSnoozeDurationMinutes,
                  DefaultSnoozeRepeatCount)
  }

  /** `validateAlarmSettings`: every field with its type, and a built-in sound id. No range checks. */
  predicate ValidateAlarmSettings(value: Json) {
    IsNonNullObject(value) &&
    var obj := Props(value);
    IsNumber(Get(obj, "ringDurationMinutes")) &&
    IsString(Get(obj, "selectedSoundId")) &&
    Get(obj, "selectedSoundId").value.s in AlarmSoundIds() &&
    IsBoolean(Get(obj, "vibrationEnabled")) &&
    IsBoolean(Get(obj, "soundEnabled")) &&
    IsBoolean(Get(obj, "snoozeEnabled")) &&
    IsNumber(Get(obj, "snoozeDurationMinutes")) &&
    IsNumber(Get(obj, "snoozeRepeatCount"))
  }

  /** The JSON object `JSON.stringify` writes for a settings record. */
  function Encode(s: AlarmSettings): Json {
    JObject(map[
      "ringDurationMinutes" := JNumber(s.ringDurationMinutes),
      "selectedSoundId" := JString(s.selectedSoundId),
      "vibrationEnabled" := JBool(s.vibrationEnabled),
      "soundEnabled" := JBool(s.soundEnabled),
      "snoozeEnabled" := JBool(s.snoozeEnabled),
      "snoozeDurationMinutes" := JNumber(s.snoozeDurationMinutes),
      "snoozeRepeatCount" := JNumber(s.snoozeRepeatCount)])
  }

  /** The validator followed by the cast: the settings a stored value stands for. */
  function Decode(value: Json): (r: Option<AlarmSettings>)
    ensures r.Some? <==> ValidateAlarmSettings(value)
    ensures r.Some? ==> r.value.selectedSoundId in AlarmSoundIds()
    ensures r.Some? ==> forall name :: name in Encode(r.value).fields ==>
      Get(Props(value), name) == Some(Encode(r.value).fields[name])
  {
    if !ValidateAlarmSettings(value) then None
    else
      var obj := Props(value);
      Some(AlarmSettings(
        obj["ringDurationMinutes"].n,
        obj["selectedSoundId"].s,
        obj["vibrationEnabled"].b,
        obj["soundEnabled"].b,
        obj["snoozeEnabled"].b,
        obj["snoozeDurationMinutes"].n,
        obj["snoozeRepeatCount"].n))
  }

  /** A record survives a save and a load exactly when its sound is a built-in one. */
  lemma DecodeEncode(s: AlarmSettings)
    ensures Decode(Encode(s)) == Some(s) <==> s.selectedSoundId in AlarmSoundIds()
    ensures s.selectedSoundId !in AlarmSoundIds() ==> Decode(Encode(s)) == None
  {
  }

  /** The defaults pass the validator, and the default ring duration is one of the options. */
  lemma DefaultsAreValid()
    ensures Decode(Encode(Defaults())) == Some(Defaults())
    ensures Defaults().ringDurationMinutes in RingDurationOptionsMinutes
    ensures Defaults().selectedSoundId == "bird_01_pigeon"
  {
    DecodeEncode(Defaults());
  }

  /** The numeric fields carry no range check: any number, negative or fractional, passes. */
  lemma NumbersAreNotRangeChecked(s: AlarmSettings, ring: real, snooze: real, repeat: real)
    requires s.selectedSoundId in AlarmSoundIds()
    ensures var t := s.(ringDurationMinutes := ring, snoozeDurationMinutes := snooze, snoozeRepeatCount := repeat);
      Decode(Encode(t)) == Some(t)
  {
  }

  /** The provider: the hook instance holding the settings, and the seven setters. */
  class AlarmSettingsProvider {
    const storage: AsyncStorageState<AlarmSettings>

    constructor ()
      ensures fresh(storage) && storage.Valid()
      ensures storage.key == StorageKey
      ensures forall v :: storage.accept(v) == Decode(v)
      ensures storage.Snapshot() == Snap(Defaults(), false, true, [])
    {
      storage := new AsyncStorageState(StorageKey, Defaults(), Decode);
    }

    /** `ringDurationOptions`. */
    function RingDurationOptions(): (options: seq<real>)
      ensures options == RingDurationOptionsMinutes
    {
      RingDurationOptionsMinutes
    }

    method SetRingDurationMinutes(minutes: real)
      requires storage.Valid()
      modifies storage
      ensures storage.Valid()
      ensures storage.Snapshot() == AfterSet(old(storage.Snapshot()), old(storage.state).(ringDurationMinutes := minutes))
    {
      storage.SetState(storage.state.(ringDurationMinutes := minutes));
    }

    method SetSelectedSoundId(id: string)
      requires storage.Valid()
      modifies storage
      ensures storage.Valid()
      ensures storage.Snapshot() == AfterSet(old(storage.Snapshot()), old(storage.state).(selectedSoundId := id))
    {
      storage.SetState(storage.state.(selectedSoundId := id));
    }

    method SetVibrationEnabled(enabled: bool)
      requires storage.Valid()
      modifies storage
      ensures storage.Valid()
      ensures storage.Snapshot() == AfterSet(old(storage.Snapshot()), old(storage.state).(vibrationEnabled := enabled))
    {
      storage.SetState(storage.state.(vibrationEnabled := enabled));
    }

    method SetSoundEnabled(enabled: bool)
      requires storage.Valid()
      modifies storage
      ensures storage.Valid()
      ensures storage.Snapshot() == AfterSet(old(storage.Snapshot()), old(storage.state).(soundEnabled := enabled))
    {
      storage.SetState(storage.state.(soundEnabled := enabled));
    }

    method SetSnoozeEnabled(enabled: bool)
      requires storage.Valid()
      modifies storage
      ensures storage.Valid()
      ensures storage.Snapshot() == AfterSet(old(storage.Snapshot()), old(storage.state).(snoozeEnabled := enabled))
    {
      storage.SetState(storage.state.(snoozeEnabled := enabled));
    }

    method SetSnoozeDurationMinutes(minutes: real)
      requires storage.Valid()
      modifies storage
      ensures storage.Valid()
      ensures storage.Snapshot() == AfterSet(old(storage.Snapshot()), old(storage.state).(snoozeDurationMinutes := minutes))
    {
      storage.SetState(storage.state.(snoozeDurationMinutes := minutes));
    }

    method SetSnoozeRepeatCount(count: real)
      requires storage.Valid()
      modifies storage
      ensures storage.Valid()
      ensures storage.Snapshot() == AfterSet(old(storage.Snapshot()), old(storage.state).(snoozeRepeatCount := count))
    {
      storage.SetState(storage.state.(snoozeRepeatCount := count));
    }
  }
}
