/**
 * The persisted alarm-time selection (src/context/TimeSelectionContext.tsx): hour,
 * minute and session mode, held in `useAsyncStorageState`, with a range-checking
 * validator and three single-field setters.
 */
module TimeSelectionContext {
  import opened Wrappers
  import opened Json
  import opened AsyncStorageState
  import opened DailyOutcomes

  datatype TimeSelection = TimeSelection(hour: real, minute: real, mode: Mode)

  const StorageKey: string := "wakewalk:time-selection"
  const DefaultHour: real := 7.0
  const DefaultMinute: real := 0.0
  const DefaultMode: Mode := Alarm

  function Defaults(): TimeSelection {
    TimeSelection(DefaultHour, DefaultMinute, DefaultMode)
  }

  /** The string a session mode is stored as. */
  function ModeName(m: Mode): string {
    match m
    case Alarm => "alarm"
    case Nap => "nap"
  }

  /** `validateTimeSelection`: hour in [0, 24), minute in [0, 60), mode 'alarm' or 'nap'. */
  predicate ValidateTimeSelection(value: Json) {
    IsNonNullObject(value) &&
    var obj := Props(value);
    IsNumber(Get(obj, "hour")) &&
    0.0 <= obj["hour"].n < 24.0 &&
    IsNumber(Get(obj, "minute")) &&
    0.0 <= obj["minute"].n < 60.0 &&
    (IsStringLiteral(Get(obj, "mode"), "alarm") || IsStringLiteral(Get(obj, "mode"), "nap"))
  }

  function Encode(t: TimeSelection): Json {
    JObject(map["hour" := JNumber(t.hour), "minute" := JNumber(t.minute), "mode" := JString(ModeName(t.mode))])
  }

  /** The validator followed by the cast. */
  function Decode(value: Json): (r: Option<TimeSelection>)
    ensures r.Some? <==> ValidateTimeSelection(value)
    ensures r.Some? ==> 0.0 <= r.value.hour < 24.0 && 0.0 <= r.value.minute < 60.0
    ensures r.Some? ==> forall name :: name in Encode(r.value).fields ==>
      Get(Props(value), name) == Some(Encode(r.value).fields[name])
  {
    if !ValidateTimeSelection(value) then None
    else
      var obj := Props(value);
      Some(TimeSelection(obj["hour"].n, obj["minute"].n, if obj["mode"] == JString("alarm") then Alarm else Nap))
  }

  /** A selection survives a save and a load exactly when hour and minute are in range. */
  lemma DecodeEncode(t: TimeSelection)
    ensures Decode(Encode(t)) == Some(t) <==> 0.0 <= t.hour < 24.0 && 0.0 <= t.minute < 60.0
    ensures !(0.0 <= t.hour < 24.0 && 0.0 <= t.minute < 60.0) ==> Decode(Encode(t)) == None
  {
    assert ModeName(t.mode) == "alarm" <==> t.mode == Alarm;
  }

  /** Integrality is not checked: 7.5 hours and 0.25 minutes are accepted as they are. */
  lemma FractionalTimesAccepted()
    ensures Decode(Encode(TimeSelection(7.5, 0.25, Nap))) == Some(TimeSelection(7.5, 0.25, Nap))
  {
    DecodeEncode(TimeSelection(7.5, 0.25, Nap));
  }

  /** The default 7:00 in alarm mode passes the validator. */
  lemma DefaultsAreValid()
    ensures Decode(Encode(Defaults())) == Some(Defaults())
  {
    DecodeEncode(Defaults());
  }

  class TimeSelectionProvider {
    const storage: AsyncStorageState<TimeSelection>

    constructor ()
      ensures fresh(storage) && storage.Valid()
      ensures storage.key == StorageKey
      ensures forall v :: storage.accept(v) == Decode(v)
      ensures storage.Snapshot() == Snap(Defaults(), false, true, [])
    {
      storage := new AsyncStorageState(StorageKey, Defaults(), Decode);
    }

    method SetHour(hour: real)
      requires storage.Valid()
      modifies storage
      ensures storage.Valid()
      ensures storage.Snapshot() == AfterSet(old(storage.Snapshot()), old(storage.state).(hour := hour))
    {
      storage.SetState(storage.state.(hour := hour));
    }

    method SetMinute(minute: real)
      requires storage.Valid()
      modifies storage
      ensures storage.Valid()
      ensures storage.Snapshot() == AfterSet(old(storage.Snapshot()), old(storage.state).(minute := minute))
    {
      storage.SetState(storage.state.(minute := minute));
    }

    method SetMode(mode: Mode)
      requires storage.Valid()
      modifies storage
      ensures storage.Valid()
      ensures storage.Snapshot() == AfterSet(old(storage.Snapshot()), old(storage.state).(mode := mode))
    {
      storage.SetState(storage.state.(mode := mode));
    }
  }
}
