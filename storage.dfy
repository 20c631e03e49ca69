/** `StorageManager`: the extension keeps its settings in `chrome.storage.sync`
    and moves to `chrome.storage.local` when they grow past 80% of the
    100 KB sync quota. Both areas are key-value maps; the storage type in
    use is held in memory and persisted in the local area. */
module Storage {
  import opened Wrappers

  const SyncQuotaBytes: int := 102400
  /** `SYNC_QUOTA_BYTES * 0.8`. */
  const Threshold: int := 81920
  /** `SYNC_QUOTA_BYTES * 0.5`. */
  const SmallEnough: int := 51200

  const TypeKey: string := "hm_storage_type"
  const MigrationKey: string := "hm_storage_migration_v1"
  /** The two keys the migrations move. */
  const DataKeys: seq<string> := ["headerRules", "websites"]

  const ReduceMessage: string := "Consider reducing the number of header rules or websites to stay within sync storage limits"
  const LocalMessage: string := "Using local storage - settings will not sync across Chrome instances"
  const MigrateBackMessage: string := "Data size reduced - you could migrate back to sync storage for cross-device sync"

  /** A stored JSON value, as far as the manager looks into it: `Json`
      stands for any object or array, which JavaScript always treats as
      true. */
  datatype Value = Null | Text(text: string) | Flag(flag: bool) | Json(json: string)

  predicate Truthy(v: Value)
  {
    match v
    case Null => false
    case Text(t) => t != ""
    case Flag(b) => b
    case Json(_) => true
  }

  type Area = map<string, Value>

  /** How a `chrome.storage.sync.set` call ends. */
  datatype WriteOutcome = Written | QuotaExceeded | Failed

  /** `area.get(keys)`: the requested keys that the area holds. */
  function Restrict(a: Area, keys: seq<string>): (r: Area)
  {
    map k | k in a && k in keys :: a[k]
  }

  lemma RestrictIn(a: Area, keys: seq<string>, k: string)
    ensures k in Restrict(a, keys) <==> k in a && k in keys
    ensures k in Restrict(a, keys) ==> Restrict(a, keys)[k] == a[k]
  {
  }

  /** The manager's state together with the two areas. `currentType` is
      `Null` before `init`. */
  datatype Store = Store(sync: Area, local: Area, currentType: Value, initialized: bool)

  predicate IsLocal(t: Value) { t == Text("local") }
  predicate IsSync(t: Value) { t == Text("sync") }

  /** Which sync calls on a migration path reject: the read of sync's
      `headerRules` and `websites`, and the `sync.clear` inside
      `migrateToLocalStorage`. */
  datatype SyncFaults = SyncFaults(getFails: bool, clearFails: bool)

  /** The failure points of `init`: the read of the stored type, and the
      sync calls of the one-time migration check. */
  datatype InitFaults = InitFaults(typeReadFails: bool, migration: SyncFaults)

  const NoSyncFaults: SyncFaults := SyncFaults(false, false)

  /** `migrateToLocalStorage(existing)`: local gets `existing`; then sync
      is cleared and the type becomes `local`, in memory and persisted.
      When `sync.clear` rejects, the method rethrows with sync and the type
      as they were, and only the local write has happened. */
  function MoveToLocal(s: Store, existing: Area, clearFails: bool): Store
  {
    if clearFails then s.(local := s.local + existing)
    else s.(local := (s.local + existing)[TypeKey := Text("local")], sync := map[], currentType := Text("local"))
  }

  /** `syncData.headerRules || syncData.websites`. */
  predicate HasData(d: Area)
  {
    ("headerRules" in d && Truthy(d["headerRules"])) || ("websites" in d && Truthy(d["websites"]))
  }

  /** Whether the local area carries the migration marker. */
  predicate Marked(s: Store)
  {
    MigrationKey in s.local && Truthy(s.local[MigrationKey])
  }

  /** Whether the data sync holds calls for the one-time migration. */
  predicate Oversized(s: Store, size: Area -> nat)
  {
    var syncData := Restrict(s.sync, DataKeys);
    HasData(syncData) && size(syncData) > Threshold
  }

  /** `performMigrationIfNeeded`. A rejection of the sync read, or of the
      migration, is caught and logged before the marker is written. */
  function Migrated(s: Store, size: Area -> nat, f: SyncFaults): Store
  {
    if Marked(s) || f.getFails then s
    else if Oversized(s, size) && f.clearFails then MoveToLocal(s, Restrict(s.sync, DataKeys), true)
    else
      var s1 := if Oversized(s, size) then MoveToLocal(s, Restrict(s.sync, DataKeys), false) else s;
      s1.(local := s1.local[MigrationKey := Flag(true)])
  }

  /** `init`. */
  function Initialized(s: Store, size: Area -> nat, f: InitFaults): Store
  {
    if s.initialized then s
    else if f.typeReadFails then s.(currentType := Text("local"), initialized := true)
    else
      var t := if TypeKey in s.local && Truthy(s.local[TypeKey]) then s.local[TypeKey] else Text("sync");
      Migrated(s.(currentType := t), size, f.migration).(initialized := true)
  }

  /** What `get(keys)` returns once the manager is initialised;
      `syncReadFails` is a rejection of the sync read, after which the
      local area answers. */
  function GetResult(s: Store, keys: seq<string>, syncReadFails: bool): Area
  {
    if IsLocal(s.currentType) || syncReadFails then Restrict(s.local, keys)
    else
      var result := Restrict(s.sync, keys);
      if forall k :: k in keys ==> k in result then result
      else result + Restrict(s.local, keys)
  }

  /** The catch block of `set`: `data` goes to local and the type becomes
      `local`, in memory and persisted. */
  function FellBack(s: Store, data: Area): Store
  {
    s.(local := (s.local + data)[TypeKey := Text("local")], currentType := Text("local"))
  }

  /** The read of sync's `headerRules` and `websites` followed by
      `migrateToLocalStorage({...existingData, ...data})`, before the catch
      block of `set` sees any rejection. */
  function MigratedWith(s: Store, data: Area, f: SyncFaults): Store
  {
    if f.getFails then s
    else MoveToLocal(s, Restrict(s.sync, DataKeys) + data, f.clearFails)
  }

  /** Both migrating paths of `set`: a rejection on the way ends in the
      catch block. */
  function SetMigration(s: Store, data: Area, f: SyncFaults): Store
  {
    if f.getFails || f.clearFails then FellBack(MigratedWith(s, data, f), data)
    else MigratedWith(s, data, f)
  }

  /** `set(data)` once the manager is initialised: `outcome` is how the
      `sync.set` ends and `f` the sync calls of a migration. */
  function SetResult(s: Store, size: Area -> nat, data: Area, outcome: WriteOutcome, f: SyncFaults): Store
  {
    if IsLocal(s.currentType) then s.(local := s.local + data)
    else if size(data) > Threshold then
      if IsSync(s.currentType) then SetMigration(s, data, f)
      else s.(local := s.local + data)
    else
      match outcome
      case Written => s.(sync := s.sync + data)
      case QuotaExceeded => SetMigration(s, data, f)
      case Failed => FellBack(s, data)
  }

  /** `remove(keys)` once the manager is initialised. `Promise.allSettled`
      swallows a rejected `sync.remove`, which leaves sync as it was. */
  function RemoveResult(s: Store, keys: set<string>, syncRemoveFails: bool): Store
  {
    if IsLocal(s.currentType) then s.(local := s.local - keys)
    else s.(sync := if syncRemoveFails then s.sync else s.sync - keys, local := s.local - keys)
  }

  /** `clear()` once the manager is initialised. `Promise.allSettled`
      swallows a rejected `sync.clear`, which leaves sync as it was. */
  function ClearResult(s: Store, syncClearFails: bool): Store
  {
    s.(sync := if syncClearFails then s.sync else map[], local := map[TypeKey := Text("sync")], currentType := Text("sync"))
  }

  /** Why `migrateBackToSync` throws. */
  datatype MigrateBackError = AlreadySync | TooLarge | ClearRejected | WriteRejected

  /** `migrateBackToSync` once the manager is initialised: the new state
      and the error it throws, if any. `clearFails` is a rejection of the
      `sync.clear` and `outcome` how the `sync.set` ends. */
  function MigrateBack(s: Store, size: Area -> nat, clearFails: bool, outcome: WriteOutcome): (Store, Option<MigrateBackError>)
  {
    if IsSync(s.currentType) then (s, Some(AlreadySync))
    else
      var localData := Restrict(s.local, DataKeys);
      if size(localData) > Threshold then (s, Some(TooLarge))
      else if clearFails then (s, Some(ClearRejected))
      else if outcome != Written then (s.(sync := map[]), Some(WriteRejected))
      else
        (s.(sync := localData,
            local := (s.local - {"headerRules", "websites"})[TypeKey := Text("sync")],
            currentType := Text("sync")),
         None)
  }

  /** The warnings `getStorageRecommendations` returns, in order. */
  function Recommendations(syncBytes: int, currentType: Value): seq<string>
  {
    (if syncBytes > Threshold then [ReduceMessage] else []) +
    (if IsLocal(currentType) then [LocalMessage] else []) +
    (if syncBytes < SmallEnough && IsLocal(currentType) then [MigrateBackMessage] else [])
  }

  /** The test of the wrapped change listener. */
  predicate Forwards(currentType: Value, namespace: string)
  {
    (IsLocal(currentType) && namespace == "local") || (IsSync(currentType) && namespace == "sync")
  }

  class StorageManager {
    var sync: Area
    var local: Area
    var currentType: Value
    var initialized: bool
    /** `calculateDataSize`: the byte length of the JSON text of a map. */
    const sizeOf: Area -> nat

    function State(): Store
      reads this
    {
      Store(sync, local, currentType, initialized)
    }

    /** A manager over the areas as the browser holds them. */
    constructor (sync0: Area, local0: Area, size: Area -> nat)
      ensures State() == Store(sync0, local0, Null, false) && sizeOf == size
    {
      sync := sync0;
      local := local0;
      currentType := Null;
      initialized := false;
      sizeOf := size;
    }

    method Init(f: InitFaults)
      modifies this
      ensures State() == Initialized(old(State()), sizeOf, f)
    {
      if initialized {
        return;
      }
      if f.typeReadFails {
        currentType := Text("local");
        initialized := true;
        return;
      }
      var stored := if TypeKey in local then local[TypeKey] else Null;
      currentType := if Truthy(stored) then stored else Text("sync");
      PerformMigrationIfNeeded(f.migration);
      initialized := true;
    }

    method PerformMigrationIfNeeded(f: SyncFaults)
      modifies this
      ensures State() == Migrated(old(State()), sizeOf, f)
    {
      if MigrationKey in local && Truthy(local[MigrationKey]) {
        return;
      }
      if f.getFails {
        return;
      }
      var syncData := Restrict(sync, DataKeys);
      if HasData(syncData) {
        var dataSize := sizeOf(syncData);
        if dataSize > Threshold {
          var thrown := MigrateToLocalStorage(syncData, f.clearFails);
          if thrown {
            return;
          }
        }
      }
      local := local[MigrationKey := Flag(true)];
    }

    /** Returns whether the method rethrows. */
    method MigrateToLocalStorage(existing: Area, clearFails: bool) returns (thrown: bool)
      modifies this
      ensures State() == MoveToLocal(old(State()), existing, clearFails)
      ensures thrown == clearFails
    {
      local := local + existing;
      if clearFails {
        return true;
      }
      sync := map[];
      currentType := Text("local");
      local := local[TypeKey := Text("local")];
      return false;
    }

    method Get(keys: seq<string>, init: InitFaults, syncReadFails: bool) returns (r: Area)
      modifies this
      ensures State() == Initialized(old(State()), sizeOf, init)
      ensures r == GetResult(State(), keys, syncReadFails)
    {
      Init(init);
      if currentType == Text("local") || syncReadFails {
        return Restrict(local, keys);
      }
      var result := Restrict(sync, keys);
      var hasAllData := forall k :: k in keys ==> k in result;
      if !hasAllData {
        var localResult := Restrict(local, keys);
        return result + localResult;
      }
      return result;
    }

    /** The read of sync's `headerRules` and `websites` and the migration
        of them overlaid with `data`; returns whether a rejection escaped. */
    method MigrateWith(data: Area, f: SyncFaults) returns (failed: bool)
      modifies this
      ensures State() == MigratedWith(old(State()), data, f)
      ensures failed == (f.getFails || f.clearFails)
    {
      if f.getFails {
        return true;
      }
      var existing := Restrict(sync, DataKeys);
      failed := MigrateToLocalStorage(existing + data, f.clearFails);
    }

    method Set(data: Area, init: InitFaults, outcome: WriteOutcome, f: SyncFaults)
      modifies this
      ensures State() == SetResult(Initialized(old(State()), sizeOf, init), sizeOf, data, outcome, f)
    {
      Init(init);
      var dataSize := sizeOf(data);
      if currentType == Text("local") {
        local := local + data;
        return;
      }
      var failed := false;
      if dataSize > Threshold {
        if currentType == Text("sync") {
          failed := MigrateWith(data, f);
        } else {
          local := local + data;
        }
      } else {
        match outcome
        case Written =>
          sync := sync + data;
        case QuotaExceeded =>
          failed := MigrateWith(data, f);
        case Failed =>
          failed := true;
      }
      if failed {
        local := local + data;
        currentType := Text("local");
        local := local[TypeKey := Text("local")];
      }
    }

    method Remove(keys: set<string>, init: InitFaults, syncRemoveFails: bool)
      modifies this
      ensures State() == RemoveResult(Initialized(old(State()), sizeOf, init), keys, syncRemoveFails)
    {
      Init(init);
      if currentType == Text("local") {
        local := local - keys;
      } else {
        if !syncRemoveFails {
          sync := sync - keys;
        }
        local := local - keys;
      }
    }

    method Clear(init: InitFaults, syncClearFails: bool)
      modifies this
      ensures State() == ClearResult(Initialized(old(State()), sizeOf, init), syncClearFails)
    {
      Init(init);
      if !syncClearFails {
        sync := map[];
      }
      local := map[];
      currentType := Text("sync");
      local := local[TypeKey := Text("sync")];
    }

    method GetStorageRecommendations(syncBytes: int, localBytes: int) returns (r: seq<string>)
      ensures r == Recommendations(syncBytes, currentType)
    {
      r := [];
      if syncBytes > Threshold {
        r := r + [ReduceMessage];
      }
      if currentType == Text("local") {
        r := r + [LocalMessage];
      }
      if syncBytes < SmallEnough && currentType == Text("local") {
        r := r + [MigrateBackMessage];
      }
    }

    method MigrateBackToSync(init: InitFaults, clearFails: bool, outcome: WriteOutcome) returns (error: Option<MigrateBackError>)
      modifies this
      ensures (State(), error) == MigrateBack(Initialized(old(State()), sizeOf, init), sizeOf, clearFails, outcome)
    {
      Init(init);
      if currentType == Text("sync") {
        return Some(AlreadySync);
      }
      var localData := Restrict(local, DataKeys);
      var dataSize := sizeOf(localData);
      if dataSize > Threshold {
        return Some(TooLarge);
      }
      if clearFails {
        return Some(ClearRejected);
      }
      sync := map[];
      if outcome != Written {
        return Some(WriteRejected);
      }
      sync := localData;
      local := local - {"headerRules", "websites"};
      currentType := Text("sync");
      local := local[TypeKey := Text("sync")];
      return None;
    }
  }

  // ------------------------------------------------------------------
  // Properties of the manager's operations.

  /** `init` does its work once: a second call changes nothing, whatever
      happens to its reads. A failed type read selects `local`; with no
      stored type, `sync` is used once the migration is done. */
  lemma InitOnce(s: Store, size: Area -> nat, f: InitFaults, g: InitFaults)
    ensures Initialized(s, size, f).initialized
    ensures Initialized(Initialized(s, size, f), size, g) == Initialized(s, size, f)
    ensures s.initialized ==> Initialized(s, size, f) == s
    ensures !s.initialized && f.typeReadFails ==> IsLocal(Initialized(s, size, f).currentType)
    ensures !s.initialized && !f.typeReadFails && TypeKey !in s.local && Marked(s) ==>
      IsSync(Initialized(s, size, f).currentType)
  {
  }

  /** The one-time migration. It leaves its marker unless a sync call
      rejects, and once the marker is there it does nothing. Sync is
      emptied exactly when its data is over the threshold and both sync
      calls succeed; local then holds that data and the type is `local`.
      A rejection leaves sync and the type as they were and no marker, so
      the next `init` tries again. */
  lemma {:induction false} MigrationOnce(s: Store, size: Area -> nat, f: SyncFaults, g: SyncFaults)
    ensures Marked(s) ==> Migrated(s, size, f) == s
    ensures var m := Migrated(s, size, f);
      Marked(m) <==> Marked(s) || (!f.getFails && !(Oversized(s, size) && f.clearFails))
    ensures var m := Migrated(s, size, f);
      Marked(m) ==> Migrated(m, size, g) == m
    ensures var m := Migrated(s, size, f);
      m.sync != s.sync <==> !Marked(s) && !f.getFails && !f.clearFails && Oversized(s, size) && s.sync != map[]
    ensures var m := Migrated(s, size, f);
      !Marked(s) && !f.getFails && !f.clearFails && Oversized(s, size) ==>
        && m.sync == map[] && IsLocal(m.currentType) && m.local[TypeKey] == Text("local")
        && (forall k :: k in DataKeys && k in s.sync ==> k in m.local && m.local[k] == s.sync[k])
    ensures var m := Migrated(s, size, f);
      !Marked(s) && (f.getFails || (Oversized(s, size) && f.clearFails)) ==>
        m.sync == s.sync && m.currentType == s.currentType && !Marked(m)
  {
    var m := Migrated(s, size, f);
    var syncData := Restrict(s.sync, DataKeys);
    assert MigrationKey !in syncData;
    if !Marked(s) && !f.getFails {
      if Oversized(s, size) && f.clearFails {
        assert m.local == s.local + syncData;
      } else {
        assert m.local[MigrationKey] == Flag(true);
      }
    }
  }

  /** In `local` mode only the local area changes, and it takes `data`. */
  lemma SetInLocalMode(s: Store, size: Area -> nat, data: Area, outcome: WriteOutcome, f: SyncFaults)
    requires IsLocal(s.currentType)
    ensures var r := SetResult(s, size, data, outcome, f);
      r.sync == s.sync && r.currentType == s.currentType && r.local == s.local + data
  {
  }

  /** The migrating paths of `set`: too large for sync, or a quota error.
      When both sync calls succeed, local holds the new data over the old
      `headerRules` and `websites` of sync, sync is empty, and `local` is
      the type, in memory and persisted. When one rejects, the catch block
      leaves sync as it was and still switches to `local`. */
  lemma SetMigrates(s: Store, size: Area -> nat, data: Area, outcome: WriteOutcome, f: SyncFaults)
    requires !IsLocal(s.currentType)
    requires (size(data) > Threshold && IsSync(s.currentType)) || (size(data) <= Threshold && outcome == QuotaExceeded)
    ensures var r := SetResult(s, size, data, outcome, f);
      IsLocal(r.currentType) && r.local[TypeKey] == Text("local")
    ensures var r := SetResult(s, size, data, outcome, f);
      f == NoSyncFaults ==>
        && r.sync == map[]
        && (forall k :: k in data && k != TypeKey ==> k in r.local && r.local[k] == data[k])
        && (forall k :: k in DataKeys && k in s.sync && k !in data ==> k in r.local && r.local[k] == s.sync[k])
    ensures var r := SetResult(s, size, data, outcome, f);
      f != NoSyncFaults ==> r.sync == s.sync
  {
  }

  /** A `set` that ends in its catch block, after a sync write that fails
      otherwise than on the quota or after a rejected migration, sends
      `data` to local and switches to `local`, leaving sync as it was. */
  lemma SetFallsBack(s: Store, size: Area -> nat, data: Area, outcome: WriteOutcome, f: SyncFaults)
    requires !IsLocal(s.currentType)
    requires
      || (size(data) <= Threshold && outcome == Failed)
      || (f != NoSyncFaults &&
          ((size(data) > Threshold && IsSync(s.currentType)) || (size(data) <= Threshold && outcome == QuotaExceeded)))
    ensures var r := SetResult(s, size, data, outcome, f);
      && r.sync == s.sync && IsLocal(r.currentType) && r.local[TypeKey] == Text("local")
      && (forall k :: k in data && k != TypeKey ==> k in r.local && r.local[k] == data[k])
  {
  }

  /** Where `set` leaves the data when the type is one the manager itself
      stores: in local with the type `local`, or in sync with the type as
      it was. */
  lemma SetPlacesData(s: Store, size: Area -> nat, data: Area, outcome: WriteOutcome, f: SyncFaults)
    requires IsLocal(s.currentType) || IsSync(s.currentType)
    ensures var r := SetResult(s, size, data, outcome, f);
      || (IsLocal(r.currentType) && forall k :: k in data && k != TypeKey ==> k in r.local && r.local[k] == data[k])
      || (IsSync(r.currentType) && r.sync == s.sync + data)
  {
  }

  /** A read of keys just written returns the written values, whichever
      path the write took and whichever sync call rejected, as long as
      the type is one the manager itself stores and the read of sync
      succeeds. */
  lemma SetThenGet(s: Store, size: Area -> nat, data: Area, outcome: WriteOutcome, f: SyncFaults, keys: seq<string>)
    requires IsLocal(s.currentType) || IsSync(s.currentType)
    requires forall k :: k in keys ==> k in data && k != TypeKey
    ensures GetResult(SetResult(s, size, data, outcome, f), keys, false) == Restrict(data, keys)
  {
    var r := SetResult(s, size, data, outcome, f);
    SetPlacesData(s, size, data, outcome, f);
    if !IsLocal(r.currentType) {
      assert forall k :: k in keys ==> k in Restrict(r.sync, keys);
    }
  }

  /** The toggles of the background worker save `{websites: w}` and then
      read both data keys. The read returns `w` when the write left the
      manager in `local` mode, or when sync can be read and either holds
      `headerRules` (so local is not consulted) or local has no `websites`
      to overlay. Otherwise local answers for `websites`: whatever list it
      holds, or none when sync is unreadable and local has none. */
  lemma SetWebsitesThenLoad(s: Store, size: Area -> nat, w: Value, outcome: WriteOutcome, f: SyncFaults,
                            syncReadFails: bool)
    requires IsLocal(s.currentType) || IsSync(s.currentType)
    ensures var r := SetResult(s, size, map["websites" := w], outcome, f);
      var g := GetResult(r, DataKeys, syncReadFails);
      && (IsLocal(r.currentType) || (!syncReadFails && ("headerRules" in r.sync || "websites" !in r.local)) ==>
            "websites" in g && g["websites"] == w)
      && (!IsLocal(r.currentType) && (syncReadFails || "headerRules" !in r.sync) && "websites" in r.local ==>
            "websites" in g && g["websites"] == r.local["websites"])
      && (!IsLocal(r.currentType) && syncReadFails && "websites" !in r.local ==> "websites" !in g)
  {
    var data := map["websites" := w];
    var r := SetResult(s, size, data, outcome, f);
    SetPlacesData(s, size, data, outcome, f);
    if !IsLocal(r.currentType) && !syncReadFails {
      assert "websites" in Restrict(r.sync, DataKeys);
      if "headerRules" !in r.sync {
        assert "headerRules" in DataKeys && "headerRules" !in Restrict(r.sync, DataKeys);
      }
    }
  }

  /** `get` in a mode other than `local`: every key sync holds is read from
      sync when sync holds them all; otherwise local values overlay the
      sync ones. No key outside the request is returned. */
  lemma GetMerges(s: Store, keys: seq<string>)
    requires !IsLocal(s.currentType)
    ensures var r := GetResult(s, keys, false);
      && (forall k :: k in r ==> k in keys)
      && ((forall k :: k in keys ==> k in s.sync) ==> r == Restrict(s.sync, keys))
      && ((exists k :: k in keys && k !in s.sync) ==>
            && (forall k :: k in keys ==> (k in r <==> k in s.sync || k in s.local))
            && (forall k :: k in keys && k in s.local ==> r[k] == s.local[k])
            && (forall k :: k in keys && k !in s.local && k in s.sync ==> r[k] == s.sync[k]))
  {
    var result := Restrict(s.sync, keys);
    if exists k :: k in keys && k !in s.sync {
      var k :| k in keys && k !in s.sync;
      assert k !in result;
    }
  }

  /** In `local` mode, and whenever sync cannot be read, only local answers. */
  lemma GetLocal(s: Store, keys: seq<string>, syncReadFails: bool)
    requires IsLocal(s.currentType) || syncReadFails
    ensures GetResult(s, keys, syncReadFails) == Restrict(s.local, keys)
  {
  }

  /** Removed keys are gone from every later read, unless the manager is
      not in `local` mode and the swallowed `sync.remove` rejected: then a
      read of sync returns them as sync still holds them. */
  lemma RemoveThenGet(s: Store, keys: set<string>, syncRemoveFails: bool, q: seq<string>, syncReadFails: bool)
    ensures IsLocal(s.currentType) || !syncRemoveFails || syncReadFails ==>
      forall k :: k in keys ==> k !in GetResult(RemoveResult(s, keys, syncRemoveFails), q, syncReadFails)
    ensures !IsLocal(s.currentType) && syncRemoveFails ==>
      forall k :: k in keys && k in q && k in s.sync ==>
        var r := GetResult(RemoveResult(s, keys, syncRemoveFails), q, false);
        k in r && r[k] == s.sync[k]
  {
  }

  /** After `clear` local holds only the persisted `sync` type. When the
      swallowed `sync.clear` succeeded every read of other keys is empty;
      when it rejected a read of sync returns what sync held. */
  lemma ClearThenGet(s: Store, syncClearFails: bool, q: seq<string>, syncReadFails: bool)
    requires TypeKey !in q
    ensures var c := ClearResult(s, syncClearFails); IsSync(c.currentType) && c.local == map[TypeKey := Text("sync")]
    ensures !syncClearFails || syncReadFails ==> GetResult(ClearResult(s, syncClearFails), q, syncReadFails) == map[]
    ensures syncClearFails ==> GetResult(ClearResult(s, syncClearFails), q, false) == Restrict(s.sync, q)
  {
    var c := ClearResult(s, syncClearFails);
    assert Restrict(c.local, q) == map[];
  }

  /** `migrateBackToSync` refuses, changing nothing, when sync is already
      in use, the data is too large or `sync.clear` rejects; a rejected
      write leaves sync empty; on success sync holds exactly the local
      `headerRules` and `websites`, local no longer does, and the type is
      `sync`, persisted. */
  lemma MigrateBackEffect(s: Store, size: Area -> nat, clearFails: bool, outcome: WriteOutcome)
    ensures var (r, e) := MigrateBack(s, size, clearFails, outcome);
      (e == Some(AlreadySync) <==> IsSync(s.currentType)) &&
      (e == Some(AlreadySync) || e == Some(TooLarge) || e == Some(ClearRejected) ==> r == s)
    ensures var (r, e) := MigrateBack(s, size, clearFails, outcome);
      !IsSync(s.currentType) && size(Restrict(s.local, DataKeys)) > Threshold ==> e == Some(TooLarge)
    ensures var (r, e) := MigrateBack(s, size, clearFails, outcome);
      e == Some(WriteRejected) ==> r == s.(sync := map[]) && outcome != Written
    ensures var (r, e) := MigrateBack(s, size, clearFails, outcome);
      e == None <==> !IsSync(s.currentType) && size(Restrict(s.local, DataKeys)) <= Threshold && !clearFails && outcome == Written
    ensures var (r, e) := MigrateBack(s, size, clearFails, outcome);
      e == None ==>
        && r.sync == Restrict(s.local, DataKeys)
        && "headerRules" !in r.local && "websites" !in r.local
        && IsSync(r.currentType) && r.local[TypeKey] == Text("sync")
  {
  }

  /** Migrating back does not change what a read of the settings returns. */
  lemma MigrateBackKeepsSettings(s: Store, size: Area -> nat)
    requires IsLocal(s.currentType)
    requires MigrateBack(s, size, false, Written).1 == None
    ensures GetResult(MigrateBack(s, size, false, Written).0, DataKeys, false) == GetResult(s, DataKeys, false)
  {
    var r := MigrateBack(s, size, false, Written).0;
    var localData := Restrict(s.local, DataKeys);
    assert r.sync == localData;
    var result := Restrict(r.sync, DataKeys);
    assert result == localData;
    assert Restrict(r.local, DataKeys) == map[];
  }

  /** Each warning appears exactly when its condition holds, and the
      warnings about too much and about little enough data never appear
      together. */
  lemma RecommendationsCases(syncBytes: int, t: Value)
    ensures var r := Recommendations(syncBytes, t);
      && (ReduceMessage in r <==> syncBytes > Threshold)
      && (LocalMessage in r <==> IsLocal(t))
      && (MigrateBackMessage in r <==> syncBytes < SmallEnough && IsLocal(t))
      && |r| <= 2
  {
  }

  /** The wrapped listener passes on events of the area in use and of no
      other. */
  lemma ForwardsCurrentArea(t: Value, namespace: string, other: string)
    ensures Forwards(t, namespace) ==> t == Text(namespace)
    ensures Forwards(t, namespace) && Forwards(t, other) ==> namespace == other
    ensures (IsLocal(t) || IsSync(t)) ==> Forwards(t, t.text)
  {
  }
}
