/**
 * The daily-outcome store (src/storage/dailyOutcome.ts): one persisted map from
 * date keys to outcome records, read and written back whole on every operation.
 *
 * A record is a partial object: every field may be absent, which is what the
 * object-spread merges of the source act on. A field holding JavaScript
 * `undefined` is modelled as absent. Timestamps are instants rather than their
 * ISO strings.
 */
module DailyOutcomes {
  import opened Wrappers
  import opened Time

  datatype Mode = Alarm | Nap
  datatype OutcomeResult = Success | Fail

  /** A (possibly partial) `DailyOutcome`; `None` is an absent property. */
  datatype Outcome = Outcome(
    dateKey: Option<string>,
    mode: Option<Mode>,
    alarmTime: Option<Instant>,
    wakeGoalTime: Option<Instant>,
    goalSteps: Option<int>,
    stopAt: Option<Nullable<Instant>>,
    achievedAt: Option<Nullable<Instant>>,
    stepsInWindow: Option<Nullable<int>>,
    outcome: Option<OutcomeResult>,
    ruleVersion: Option<int>,
    updatedAt: Option<Instant>)

  /** `{}`. */
  const Empty: Outcome := Outcome(None, None, None, None, None, None, None, None, None, None, None)

  /** `{ ...a, ...b }`: every property of `b` that is present wins over `a`'s. */
  function Merge(a: Outcome, b: Outcome): Outcome {
    Outcome(
      b.dateKey.Or(a.dateKey),
      b.mode.Or(a.mode),
      b.alarmTime.Or(a.alarmTime),
      b.wakeGoalTime.Or(a.wakeGoalTime),
      b.goalSteps.Or(a.goalSteps),
      b.stopAt.Or(a.stopAt),
      b.achievedAt.Or(a.achievedAt),
      b.stepsInWindow.Or(a.stepsInWindow),
      b.outcome.Or(a.outcome),
      b.ruleVersion.Or(a.ruleVersion),
      b.updatedAt.Or(a.updatedAt))
  }

  /** Spreading `{}` changes nothing, spreading twice is spreading the merge. */
  lemma MergeLaws(a: Outcome, b: Outcome, c: Outcome)
    ensures Merge(a, Empty) == a && Merge(Empty, a) == a
    ensures Merge(Merge(a, b), c) == Merge(a, Merge(b, c))
    ensures Merge(a, a) == a
  {
  }

  /**
   * The record `upsertDailyOutcome` stores: `dateKey` and a `ruleVersion` seed,
   * then `existing`, then `defaults`, then `patch` spread over each other, and
   * `updatedAt` stamped last.
   */
  function UpsertRecord(key: string, existing: Option<Outcome>, defaults: Option<Outcome>,
                        patch: Outcome, now: Instant): (r: Outcome)
    // Each field: the patch's if present, else the defaults', else the existing record's.
    ensures var ex := existing.GetOr(Empty); var df := defaults.GetOr(Empty);
      r.mode == patch.mode.Or(df.mode).Or(ex.mode) &&
      r.alarmTime == patch.alarmTime.Or(df.alarmTime).Or(ex.alarmTime) &&
      r.wakeGoalTime == patch.wakeGoalTime.Or(df.wakeGoalTime).Or(ex.wakeGoalTime) &&
      r.goalSteps == patch.goalSteps.Or(df.goalSteps).Or(ex.goalSteps) &&
      r.stopAt == patch.stopAt.Or(df.stopAt).Or(ex.stopAt) &&
      r.achievedAt == patch.achievedAt.Or(df.achievedAt).Or(ex.achievedAt) &&
      r.stepsInWindow == patch.stepsInWindow.Or(df.stepsInWindow).Or(ex.stepsInWindow) &&
      r.outcome == patch.outcome.Or(df.outcome).Or(ex.outcome)
    // The key argument only when no layer carries its own `dateKey`.
    ensures var ex := existing.GetOr(Empty); var df := defaults.GetOr(Empty);
      r.dateKey == Some(patch.dateKey.Or(df.dateKey).Or(ex.dateKey).GetOr(key))
    // `ruleVersion` falls back to 1 only when no layer has one.
    ensures var ex := existing.GetOr(Empty); var df := defaults.GetOr(Empty);
      r.ruleVersion == Some(patch.ruleVersion.Or(df.ruleVersion).Or(ex.ruleVersion).GetOr(1))
    // The patch's own `updatedAt` never survives.
    ensures r.updatedAt == Some(now)
  {
    var ex := existing.GetOr(Empty);
    var df := defaults.GetOr(Empty);
    var seed := Empty.(dateKey := Some(key), ruleVersion := Some(ex.ruleVersion.Or(df.ruleVersion).GetOr(1)));
    Merge(Merge(Merge(seed, ex), df), patch).(updatedAt := Some(now))
  }

  /**
   * The record `overwriteDailyOutcome` stores: the new outcome spread over the
   * existing record, then the key argument and the time forced.
   */
  function OverwriteRecord(key: string, existing: Option<Outcome>, outcome: Outcome, now: Instant): (r: Outcome)
    ensures r.dateKey == Some(key) && r.updatedAt == Some(now)
    // Every other field: the new outcome's if present, else kept from the existing record.
    ensures var ex := existing.GetOr(Empty);
      r.mode == outcome.mode.Or(ex.mode) &&
      r.alarmTime == outcome.alarmTime.Or(ex.alarmTime) &&
      r.wakeGoalTime == outcome.wakeGoalTime.Or(ex.wakeGoalTime) &&
      r.goalSteps == outcome.goalSteps.Or(ex.goalSteps) &&
      r.stopAt == outcome.stopAt.Or(ex.stopAt) &&
      r.achievedAt == outcome.achievedAt.Or(ex.achievedAt) &&
      r.stepsInWindow == outcome.stepsInWindow.Or(ex.stepsInWindow) &&
      r.outcome == outcome.outcome.Or(ex.outcome) &&
      r.ruleVersion == outcome.ruleVersion.Or(ex.ruleVersion)
  {
    Merge(existing.GetOr(Empty), outcome).(dateKey := Some(key), updatedAt := Some(now))
  }

  /** Upserting an empty patch without defaults keeps every field of the existing record. */
  lemma UpsertEmptyPatchKeepsRecord(key: string, existing: Outcome, now: Instant)
    requires existing.dateKey.Some? && existing.ruleVersion.Some?
    ensures UpsertRecord(key, Some(existing), None, Empty, now) == existing.(updatedAt := Some(now))
  {
  }

  /** Over no existing record, an overwrite is the new outcome with key and time stamped. */
  lemma OverwriteWithoutExisting(key: string, outcome: Outcome, now: Instant)
    ensures OverwriteRecord(key, None, outcome, now) == outcome.(dateKey := Some(key), updatedAt := Some(now))
  {
  }

  /** What `AsyncStorage.getItem` of the store's key yields, as far as `readMap` can tell. */
  datatype Stored =
    | Nothing                              // null, or the empty string
    | Unparsable                           // `JSON.parse` throws
    | NotAnObject                          // parses to null, a number, a string or a boolean
    | Records(entries: map<string, Outcome>) // parses to an object

  /** A storage call's fate: whether the read and the write reject. */
  datatype StorageIo = StorageIo(readFails: bool, writeFails: bool)

  /** `readMap`: the stored object, or `{}` whenever there is none to be had. */
  function ReadMap(s: Stored, readFails: bool): (m: map<string, Outcome>)
    ensures !readFails && s.Records? ==> m == s.entries
    ensures readFails || !s.Records? ==> m == map[]
  {
    if readFails then map[]
    else match s
      case Records(entries) => entries
      case _ => map[]
  }

  /** `writeMap`: a failed write is swallowed and leaves the old value in place. */
  function WriteMap(s: Stored, m: map<string, Outcome>, writeFails: bool): (r: Stored)
    ensures !writeFails ==> ReadMap(r, false) == m
    ensures writeFails ==> r == s
  {
    if writeFails then s else Records(m)
  }

  /** The map `upsertDailyOutcome` writes, as a function of the map it read. */
  function UpsertMap(m: map<string, Outcome>, key: string, patch: Outcome, defaults: Option<Outcome>,
                     now: Instant): map<string, Outcome> {
    m[key := UpsertRecord(key, Get(m, key), defaults, patch, now)]
  }

  function OverwriteMap(m: map<string, Outcome>, key: string, outcome: Outcome, now: Instant): map<string, Outcome> {
    m[key := OverwriteRecord(key, Get(m, key), outcome, now)]
  }

  /** The stored value after a whole `upsertDailyOutcome` call. */
  function AfterUpsert(s: Stored, key: string, patch: Outcome, defaults: Option<Outcome>, now: Instant,
                       io: StorageIo): Stored {
    WriteMap(s, UpsertMap(ReadMap(s, io.readFails), key, patch, defaults, now), io.writeFails)
  }

  /** The stored value after a whole `overwriteDailyOutcome` call. */
  function AfterOverwrite(s: Stored, key: string, outcome: Outcome, now: Instant, io: StorageIo): Stored {
    WriteMap(s, OverwriteMap(ReadMap(s, io.readFails), key, outcome, now), io.writeFails)
  }

  /** Upsert and overwrite touch the entry for their key and no other. */
  lemma WritesTouchOnlyTheirKey(m: map<string, Outcome>, key: string, patch: Outcome,
                                defaults: Option<Outcome>, now: Instant, other: string)
    requires other != key
    ensures key in UpsertMap(m, key, patch, defaults, now) && key in OverwriteMap(m, key, patch, now)
    ensures Get(UpsertMap(m, key, patch, defaults, now), other) == Get(m, other)
    ensures Get(OverwriteMap(m, key, patch, now), other) == Get(m, other)
    ensures UpsertMap(m, key, patch, defaults, now).Keys == m.Keys + {key}
  {
  }

  /** Removing deletes exactly its key; a missing key leaves the map as it was. */
  lemma RemoveTouchesOnlyItsKey(m: map<string, Outcome>, key: string, other: string)
    requires other != key
    ensures key !in m - {key}
    ensures Get(m - {key}, other) == Get(m, other)
    ensures key !in m ==> m - {key} == m
  {
  }

  /**
   * Reading after a successful upsert gives the stored record back; when the read
   * before it failed, every other record is lost, because `{}` was written back.
   */
  lemma UpsertThenGet(s: Stored, key: string, patch: Outcome, defaults: Option<Outcome>, now: Instant,
                      readFails: bool, other: string)
    requires other != key
    ensures var m := ReadMap(s, readFails);
      var after := WriteMap(s, UpsertMap(m, key, patch, defaults, now), false);
      Get(ReadMap(after, false), key) == Some(UpsertRecord(key, Get(m, key), defaults, patch, now)) &&
      Get(ReadMap(after, false), other) == (if readFails then None else Get(ReadMap(s, false), other))
  {
  }

  /** The persisted map, as an object. */
  class OutcomeStore {
    var stored: Stored

    constructor (initial: Stored)
      ensures stored == initial
    {
      stored := initial;
    }

    /** `getDailyOutcome`: the record for the key, or null (None). */
    method Get(key: string, readFails: bool) returns (r: Option<Outcome>)
      ensures readFails ==> r == None
      ensures !readFails && stored.Records? && key in stored.entries ==> r == Some(stored.entries[key])
      ensures !stored.Records? || key !in stored.entries ==> r == None
    {
      var m := ReadMap(stored, readFails);
      r := Wrappers.Get(m, key);
    }

    /** `getDailyOutcomeMap`. */
    method GetMap(readFails: bool) returns (m: map<string, Outcome>)
      ensures readFails || !stored.Records? ==> m == map[]
      ensures !readFails && stored.Records? ==> m == stored.entries
    {
      m := ReadMap(stored, readFails);
    }

    /** `upsertDailyOutcome`: read, merge the record for `key`, write back, return the record. */
    method Upsert(key: string, patch: Outcome, defaults: Option<Outcome>, now: Instant, io: StorageIo)
      returns (updated: Outcome)
      modifies this
      ensures var m := ReadMap(old(stored), io.readFails);
        updated == UpsertRecord(key, Wrappers.Get(m, key), defaults, patch, now) &&
        stored == WriteMap(old(stored), m[key := updated], io.writeFails)
      ensures stored == AfterUpsert(old(stored), key, patch, defaults, now, io)
    {
      var m := ReadMap(stored, io.readFails);
      updated := UpsertRecord(key, Wrappers.Get(m, key), defaults, patch, now);
      m := m[key := updated];
      stored := WriteMap(stored, m, io.writeFails);
    }

    /** `overwriteDailyOutcome`: as upsert, but the new outcome spread straight over the old record. */
    method Overwrite(key: string, outcome: Outcome, now: Instant, io: StorageIo) returns (written: Outcome)
      modifies this
      ensures var m := ReadMap(old(stored), io.readFails);
        written == OverwriteRecord(key, Wrappers.Get(m, key), outcome, now) &&
        stored == WriteMap(old(stored), m[key := written], io.writeFails)
      ensures stored == AfterOverwrite(old(stored), key, outcome, now, io)
    {
      var m := ReadMap(stored, io.readFails);
      m := m[key := OverwriteRecord(key, Wrappers.Get(m, key), outcome, now)];
      stored := WriteMap(stored, m, io.writeFails);
      written := m[key];
    }

    /** `removeDailyOutcome`: deletes the key and writes, only when the map it read has the key. */
    method Remove(key: string, io: StorageIo)
      modifies this
      ensures var m := ReadMap(old(stored), io.readFails);
        stored == if key in m then WriteMap(old(stored), m - {key}, io.writeFails) else old(stored)
    {
      var m := ReadMap(stored, io.readFails);
      if key in m {
        m := m - {key};
        stored := WriteMap(stored, m, io.writeFails);
      }
    }
  }
}
