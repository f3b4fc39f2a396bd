/**
 * `useAsyncStorageState` (src/hooks/useAsyncStorageState.ts): a piece of state
 * that starts at a default, is replaced once by the stored value when that value
 * is present, parses and validates, and is written back on every change once the
 * load attempt is over.
 *
 * Each effect continuation is one atomic step. `JSON.parse` followed by the
 * validator and the type cast is the `accept` function: it yields the typed
 * value for a stored JSON value the validator passes, and None otherwise.
 */
module AsyncStorageState {
  import opened Wrappers
  import opened Json

  /** What the load effect gets from `AsyncStorage.getItem(key)` and `JSON.parse`. */
  datatype StoredItem =
    | ReadError          // getItem rejects
    | NoItem             // null or the empty string: nothing to parse
    | Unparsable         // JSON.parse throws
    | Parsed(value: Json)

  /** The observable state of one hook instance; `saved` lists the values handed to `setItem`. */
  datatype Snap<T> = Snap(state: T, isHydrated: bool, mounted: bool, saved: seq<T>)

  /** Nothing is saved before hydration; afterwards the last value saved is the current state. */
  predicate SnapValid<T(==)>(s: Snap<T>) {
    (!s.isHydrated ==> s.saved == []) &&
    (s.isHydrated ==> |s.saved| > 0 && s.saved[|s.saved| - 1] == s.state)
  }

  /** The state after `setState(v)`: ignored once unmounted, saved once hydrated. */
  function AfterSet<T(==)>(s: Snap<T>, v: T): (r: Snap<T>)
    ensures SnapValid(s) ==> SnapValid(r)
    ensures s.mounted ==> r.state == v
    ensures r.isHydrated == s.isHydrated && r.mounted == s.mounted
    ensures s.saved <= r.saved && (|r.saved| > |s.saved| <==> s.mounted && s.isHydrated)
  {
    if !s.mounted then s
    else if s.isHydrated then s.(state := v, saved := s.saved + [v])
    else s.(state := v)
  }

  /** The value the load effect adopts: only a present, parsable, accepted one. */
  function Loaded<T>(current: T, item: StoredItem, accept: Json -> Option<T>): (r: T)
    ensures item.Parsed? && accept(item.value).Some? ==> r == accept(item.value).value
    ensures !(item.Parsed? && accept(item.value).Some?) ==> r == current
  {
    match item
    case Parsed(v) => accept(v).GetOr(current)
    case _ => current
  }

  /**
   * The state after the load effect finishes: hydrated whatever the outcome,
   * unless the hook was unmounted first, in which case nothing happens. Becoming
   * hydrated, or adopting a freshly parsed object, re-runs the save effect.
   */
  function AfterLoad<T(==)>(s: Snap<T>, item: StoredItem, accept: Json -> Option<T>): (r: Snap<T>)
    ensures SnapValid(s) ==> SnapValid(r)
    ensures !s.mounted ==> r == s
    ensures s.mounted ==> r.isHydrated && r.state == Loaded(s.state, item, accept)
  {
    if !s.mounted then s
    else
      var adopted := item.Parsed? && accept(item.value).Some?;
      var v := Loaded(s.state, item, accept);
      if !s.isHydrated || adopted then Snap(v, true, true, s.saved + [v]) else s
  }

  /** A value set before hydration is lost when the load adopts the stored one. */
  lemma EarlySetIsOverwritten<T>(s: Snap<T>, v: T, stored: Json, accept: Json -> Option<T>)
    requires s.mounted && !s.isHydrated && accept(stored).Some?
    ensures AfterLoad(AfterSet(s, v), Parsed(stored), accept).state == accept(stored).value
    ensures AfterLoad(AfterSet(s, v), NoItem, accept).state == v
  {
  }

  class AsyncStorageState<T(==)> {
    const key: string
    const accept: Json -> Option<T>
    var state: T
    var isHydrated: bool
    var mounted: bool
    var saved: seq<T>

    function Snapshot(): Snap<T>
      reads this
    {
      Snap(state, isHydrated, mounted, saved)
    }

    predicate Valid()
      reads this
    {
      SnapValid(Snapshot())
    }

    /** `useState(defaultValue)` and `useState(false)` on mount. */
    constructor (key: string, defaultValue: T, accept: Json -> Option<T>)
      ensures Valid()
      ensures this.key == key && this.accept == accept
      ensures Snapshot() == Snap(defaultValue, false, true, [])
    {
      this.key := key;
      this.accept := accept;
      state := defaultValue;
      isHydrated := false;
      mounted := true;
      saved := [];
    }

    /** The load effect's continuation, once `getItem` (and `JSON.parse`) settle. */
    method Load(item: StoredItem)
      requires Valid()
      modifies this
      ensures Valid()
      ensures Snapshot() == AfterLoad(old(Snapshot()), item, accept)
    {
      if mounted {
        var adopted := item.Parsed? && accept(item.value).Some?;
        if adopted {
          state := accept(item.value).value;
        }
        if !isHydrated || adopted {
          isHydrated := true;
          saved := saved + [state];
        }
      }
    }

    /** `setState(v)`, with the save effect it triggers. */
    method SetState(v: T)
      requires Valid()
      modifies this
      ensures Valid()
      ensures Snapshot() == AfterSet(old(Snapshot()), v)
    {
      if mounted {
        state := v;
        if isHydrated {
          saved := saved + [v];
        }
      }
    }

    /** The load effect's cleanup: `isMounted = false`. */
    method Unmount()
      requires Valid()
      modifies this
      ensures Valid()
      ensures Snapshot() == old(Snapshot()).(mounted := false)
    {
      mounted := false;
    }
  }
}
