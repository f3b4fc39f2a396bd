/**
 * The persisted alarm state (src/context/AlarmStateContext.tsx): status, the
 * scheduled time as an ISO string or null, and the remaining snooze count, held in
 * `useAsyncStorageState` with three setters and a derived `scheduledAt`.
 */
module AlarmStateContext {
  import opened Wrappers
  import opened Json
  import opened AsyncStorageState
  import opened Time

  datatype AlarmStatus = Idle | Armed | Ringing

  datatype StoredAlarmState = StoredAlarmState(status: AlarmStatus, scheduledAt: Nullable<string>, remainingSnoozes: real)

  const StorageKey: string := "wakewalk:alarm-state"
  const DefaultStatus: AlarmStatus := Idle
  const DefaultRemainingSnoozes: real := 0.0

  function Defaults(): StoredAlarmState {
    StoredAlarmState(DefaultStatus, Null, DefaultRemainingSnoozes)
  }

  function StatusName(s: AlarmStatus): string {
    match s
    case Idle => "idle"
    case Armed => "armed"
    case Ringing => "ringing"
  }

  /** `validateAlarmState`: a known status, `scheduledAt` null or a string, a number of snoozes. */
  predicate ValidateAlarmState(value: Json) {
    IsNonNullObject(value) &&
    var obj := Props(value);
    (IsStringLiteral(Get(obj, "status"), "idle") ||
     IsStringLiteral(Get(obj, "status"), "armed") ||
     IsStringLiteral(Get(obj, "status"), "ringing")) &&
    (Get(obj, "scheduledAt") == Some(JNull) || IsString(Get(obj, "scheduledAt"))) &&
    IsNumber(Get(obj, "remainingSnoozes"))
  }

  function Encode(s: StoredAlarmState): Json {
    JObject(map[
      "status" := JString(StatusName(s.status)),
      "scheduledAt" := (match s.scheduledAt case Null => JNull case Value(iso) => JString(iso)),
      "remainingSnoozes" := JNumber(s.remainingSnoozes)])
  }

  /** The validator followed by the cast. */
  function Decode(value: Json): (r: Option<StoredAlarmState>)
    ensures r.Some? <==> ValidateAlarmState(value)
    ensures r.Some? ==> forall name :: name in Encode(r.value).fields ==>
      Get(Props(value), name) == Some(Encode(r.value).fields[name])
  {
    if !ValidateAlarmState(value) then None
    else
      var obj := Props(value);
      var status := if obj["status"] == JString("idle") then Idle
                    else if obj["status"] == JString("armed") then Armed
                    else Ringing;
      Some(StoredAlarmState(
        status,
        if obj["scheduledAt"].JNull? then Null else Value(obj["scheduledAt"].s),
        obj["remainingSnoozes"].n))
  }

  /** Every state survives a save and a load; a negative snooze count is not rejected. */
  lemma DecodeEncode(s: StoredAlarmState)
    ensures Decode(Encode(s)) == Some(s)
  {
    assert StatusName(s.status) == "idle" <==> s.status == Idle;
    assert StatusName(s.status) == "armed" <==> s.status == Armed;
  }

  /** The default {idle, null, 0} passes the validator. */
  lemma DefaultsAreValid()
    ensures Decode(Encode(Defaults())) == Some(Defaults())
  {
    DecodeEncode(Defaults());
  }

  /** The derived `scheduledAt`: a `Date` for a non-empty stored string, otherwise null. */
  function ExposedScheduledAt(s: StoredAlarmState): (r: Option<string>)
    ensures r.None? <==> (s.scheduledAt == Null || s.scheduledAt == Value(""))
    ensures r.Some? ==> s.scheduledAt == Value(r.value)
  {
    match s.scheduledAt
    case Null => None
    case Value(iso) => if iso == "" then None else Some(iso)
  }

  /** What `setScheduledAt(date)` stores: `date?.toISOString() ?? null`. */
  function StoredScheduledAt(date: Option<Instant>): (r: Nullable<string>)
    ensures r == Null <==> date.None?
  {
    match date
    case None => Null
    case Some(t) => Value(IsoString(t))
  }

  /** Setting a time always exposes a time; setting null exposes null. */
  lemma SetScheduledAtIsExposed(s: StoredAlarmState, date: Option<Instant>)
    ensures ExposedScheduledAt(s.(scheduledAt := StoredScheduledAt(date))).Some? <==> date.Some?
  {
  }

  /** The argument of `setRemainingSnoozes`: a count, or an update of the previous count. */
  datatype SnoozeUpdate = Count(n: real) | Apply(f: real -> real)

  function NewSnoozes(previous: real, update: SnoozeUpdate): (r: real)
    ensures update.Count? ==> r == update.n
    ensures update.Apply? ==> r == update.f(previous)
  {
    match update
    case Count(n) => n
    case Apply(f) => f(previous)
  }

  class AlarmStateProvider {
    const storage: AsyncStorageState<StoredAlarmState>

    constructor ()
      ensures fresh(storage) && storage.Valid()
      ensures storage.key == StorageKey
      ensures forall v :: storage.accept(v) == Decode(v)
      ensures storage.Snapshot() == Snap(Defaults(), false, true, [])
    {
      storage := new AsyncStorageState(StorageKey, Defaults(), Decode);
    }

    /** The `scheduledAt` the context exposes. */
    function ScheduledAt(): (r: Option<string>)
      reads storage
      ensures r == ExposedScheduledAt(storage.state)
    {
      ExposedScheduledAt(storage.state)
    }

    method SetStatus(status: AlarmStatus)
      requires storage.Valid()
      modifies storage
      ensures storage.Valid()
      ensures storage.Snapshot() == AfterSet(old(storage.Snapshot()), old(storage.state).(status := status))
    {
      storage.SetState(storage.state.(status := status));
    }

    method SetScheduledAt(date: Option<Instant>)
      requires storage.Valid()
      modifies storage
      ensures storage.Valid()
      ensures storage.Snapshot() ==
        AfterSet(old(storage.Snapshot()), old(storage.state).(scheduledAt := StoredScheduledAt(date)))
      ensures old(storage.mounted) ==> (ScheduledAt().Some? <==> date.Some?)
    {
      storage.SetState(storage.state.(scheduledAt := StoredScheduledAt(date)));
      SetScheduledAtIsExposed(old(storage.state), date);
    }

    method SetRemainingSnoozes(update: SnoozeUpdate)
      requires storage.Valid()
      modifies storage
      ensures storage.Valid()
      ensures storage.Snapshot() ==
        AfterSet(old(storage.Snapshot()),
                 old(storage.state).(remainingSnoozes := NewSnoozes(old(storage.state).remainingSnoozes, update)))
    {
      storage.SetState(storage.state.(remainingSnoozes := NewSnoozes(storage.state.remainingSnoozes, update)));
    }
  }
}
