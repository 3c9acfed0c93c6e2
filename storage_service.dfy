/**
 * The key-value storage service: five named aliases for storage keys, key validation, and save, load,
 * remove and clear over the device store. The store is a map from keys to stored values; serialising a
 * value and parsing it back gives the value again.
 */
module StorageService {
  import opened Wrappers

  /** A key argument as JavaScript receives it: a string, or some value that is not a string. */
  datatype Key = Str(s: string) | NonString

  /** `STORAGE_KEYS`: each alias and the key it stands for. */
  function Aliases(): map<string, string> {
    map[
      "WORKOUTS" := "@workouts",
      "COMPLETED_WORKOUTS" := "@completed_workouts",
      "TRAINING_HISTORY" := "@training_history",
      "PROGRESS" := "@progress",
      "ACTIVE_WORKOUT" := "@active_workout"]
  }

  /** `Object.values(STORAGE_KEYS)`: the keys `clearAllData` removes. */
  function StorageKeys(): (keys: set<string>)
    ensures keys == Aliases().Values
  {
    var keys := {"@workouts", "@completed_workouts", "@training_history", "@progress", "@active_workout"};
    var m := Aliases();
    forall v | v in m.Values ensures v in keys {
      var a :| a in m && m[a] == v;
    }
    assert m["WORKOUTS"] in m.Values && m["COMPLETED_WORKOUTS"] in m.Values && m["TRAINING_HISTORY"] in m.Values;
    assert m["PROGRESS"] in m.Values && m["ACTIVE_WORKOUT"] in m.Values;
    keys
  }

  /** `!key || typeof key !== "string"` rejects the key. */
  predicate ValidKey(key: Key) {
    key.Str? && key.s != ""
  }

  /** `STORAGE_KEYS[key] || key`: an alias stands for its key, any other string for itself. */
  function Resolve(key: string): (r: string)
    ensures r != "" <==> key != ""
  {
    if key in Aliases() then Aliases()[key] else key
  }

  /** The store after `saveData(key, data)`. */
  function Saved<V>(store: map<string, V>, key: Key, data: V): map<string, V> {
    if ValidKey(key) then store[Resolve(key.s) := data] else store
  }

  /** What `loadData(key)` returns: null (None) for an invalid key or a key with nothing stored. */
  function Loaded<V>(store: map<string, V>, key: Key): Option<V> {
    if ValidKey(key) && Resolve(key.s) in store then Some(store[Resolve(key.s)]) else None
  }

  /** The store after `removeData(key)`. */
  function Removed<V>(store: map<string, V>, key: Key): map<string, V> {
    if ValidKey(key) then store - {Resolve(key.s)} else store
  }

  /** The store after `clearAllData()`. */
  function Cleared<V>(store: map<string, V>): map<string, V> {
    store - StorageKeys()
  }

  class Storage<V> {
    var store: map<string, V>

    constructor (initial: map<string, V>)
      ensures store == initial
    {
      store := initial;
    }

    /** `saveData`: false and no write for an invalid key; otherwise the resolved key holds `data`. */
    method SaveData(key: Key, data: V) returns (ok: bool)
      modifies this
      ensures ok <==> ValidKey(key)
      ensures store == Saved(old(store), key, data)
    {
      if key.NonString? || key.s == "" {
        return false;
      }
      var storageKey := Resolve(key.s);
      store := store[storageKey := data];
      return true;
    }

    /** `loadData`: null for an invalid key or nothing stored, else the stored value. */
    method LoadData(key: Key) returns (r: Option<V>)
      ensures r == Loaded(store, key)
      ensures r.Some? ==> ValidKey(key) && Resolve(key.s) in store && store[Resolve(key.s)] == r.value
    {
      if key.NonString? || key.s == "" {
        return None;
      }
      var storageKey := Resolve(key.s);
      if storageKey in store {
        return Some(store[storageKey]);
      }
      return None;
    }

    /** `removeData`: false and no change for an invalid key; otherwise the resolved key is gone. */
    method RemoveData(key: Key) returns (ok: bool)
      modifies this
      ensures ok <==> ValidKey(key)
      ensures store == Removed(old(store), key)
    {
      if key.NonString? || key.s == "" {
        return false;
      }
      var storageKey := Resolve(key.s);
      store := store - {storageKey};
      return true;
    }

    /** `clearAllData`: removes the five known keys. */
    method ClearAllData() returns (ok: bool)
      modifies this
      ensures ok
      ensures store == Cleared(old(store))
    {
      store := store - StorageKeys();
      return true;
    }
  }

  /** Each alias resolves to its "@" key, resolving is idempotent, and a non-alias resolves to itself. */
  lemma ResolveMeaning(key: string)
    ensures key in Aliases() ==> Resolve(key) in StorageKeys() && Resolve(key)[0] == '@'
    ensures key !in Aliases() ==> Resolve(key) == key
    ensures Resolve(Resolve(key)) == Resolve(key)
    ensures Resolve("WORKOUTS") == "@workouts" && Resolve("PROGRESS") == "@progress"
  {
  }

  /** An invalid key leaves the store as it is and loads nothing. */
  lemma InvalidKeyChangesNothing<V>(store: map<string, V>, key: Key, data: V)
    requires !ValidKey(key)
    ensures Saved(store, key, data) == store && Removed(store, key) == store && Loaded(store, key) == None
  {
  }

  /** Saving then loading with the same key gives the saved value; only the resolved key changes. */
  lemma SaveThenLoad<V>(store: map<string, V>, key: Key, data: V)
    requires ValidKey(key)
    ensures Loaded(Saved(store, key, data), key) == Some(data)
    ensures forall k :: k != Resolve(key.s) ==> (k in Saved(store, key, data) <==> k in store)
    ensures forall k :: k != Resolve(key.s) && k in store ==> Saved(store, key, data)[k] == store[k]
  {
  }

  /** An alias and the key it stands for address the same slot. */
  lemma AliasSharesSlot<V>(store: map<string, V>, alias: string, data: V)
    requires alias in Aliases()
    ensures Loaded(Saved(store, Str(alias), data), Str(Aliases()[alias])) == Some(data)
    ensures Loaded(store, Str(alias)) == Loaded(store, Str(Aliases()[alias]))
  {
    ResolveMeaning(alias);
  }

  /** Loading a valid key with nothing stored under its resolved key gives null. */
  lemma LoadMissing<V>(store: map<string, V>, key: Key)
    requires ValidKey(key) && Resolve(key.s) !in store
    ensures Loaded(store, key) == None
  {
  }

  /** After removing a key it loads as null, and every other key keeps its value. */
  lemma RemoveThenLoad<V>(store: map<string, V>, key: Key)
    requires ValidKey(key)
    ensures Loaded(Removed(store, key), key) == None
    ensures forall k :: k != Resolve(key.s) ==> (k in Removed(store, key) <==> k in store)
    ensures forall k :: k in Removed(store, key) ==> Removed(store, key)[k] == store[k]
  {
  }

  /** Clearing removes exactly the five known keys and keeps every other key with its value. */
  lemma ClearRemovesKnownKeys<V>(store: map<string, V>)
    ensures forall k :: k in Cleared(store) <==> k in store && k !in StorageKeys()
    ensures forall k :: k in Cleared(store) ==> Cleared(store)[k] == store[k]
    ensures forall a :: a in Aliases() ==> Loaded(Cleared(store), Str(a)) == None
  {
    forall a | a in Aliases() ensures Loaded(Cleared(store), Str(a)) == None {
      ResolveMeaning(a);
    }
  }
}
