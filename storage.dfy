/**
 * The storage helpers of src/storage.ts: reading keys from
 * `chrome.storage.local` / `chrome.storage.sync` with missing values turned
 * into `null`, and writing a partial record through unchanged.
 *
 * What the host hands to the `get` callback is an input; the host's own
 * store appears only in the save-then-get lemma at the end.
 */
module Storage {
  import opened Wrappers
  import opened Js

  /** `chrome.storage.local` or `chrome.storage.sync`. */
  datatype Area = Local | Sync

  /** A record of stored values: the host's `result`, or what a helper resolves with. */
  type Record = map<string, Value>

  /** A `chrome.storage.<area>.get` call; a query of `None` is `null`, meaning every key. */
  datatype HostGet = HostGet(area: Area, query: Option<seq<string>>)

  /** A `chrome.storage.<area>.set` call. */
  datatype HostSet = HostSet(area: Area, data: Record)

  /** `keys.length ? keys : null`. */
  function Query(keys: seq<string>): (q: Option<seq<string>>)
    ensures q.None? <==> |keys| == 0
    ensures q.Some? ==> q.value == keys
  {
    if |keys| == 0 then None else Some(keys)
  }

  /** `result[k] ?? null`: a missing, `null` or `undefined` value reads as `null`. */
  function Lookup(result: Record, k: string): (v: Value)
    ensures k !in result ==> v == Null
    ensures k in result && result[k] != Null && result[k] != Undefined ==> v == result[k]
    ensures k in result && (result[k] == Null || result[k] == Undefined) ==> v == Null
  {
    if k in result then Coalesce(result[k], Null) else Null
  }

  /** The record the keyed branch resolves with: one entry per requested key. */
  ghost function Projection(result: Record, keys: seq<string>): Record
  {
    map k | k in keys :: Lookup(result, k)
  }

  /** `keys.forEach((k) => (mapped[k] = result[k] ?? null))`. */
  method Project(result: Record, keys: seq<string>) returns (mapped: Record)
    ensures mapped == Projection(result, keys)
  {
    mapped := map[];
    var i := 0;
    while i < |keys|
      invariant 0 <= i <= |keys|
      invariant mapped == Projection(result, keys[..i])
    {
      assert keys[..i + 1] == keys[..i] + [keys[i]];
      mapped := mapped[keys[i] := Lookup(result, keys[i])];
      i := i + 1;
    }
    assert keys[..i] == keys;
  }

  /**
   * The requested keys, duplicates collapsing, are exactly the keys of the
   * projection; each maps to its stored value, or to `null` when that is
   * missing, `null` or `undefined`, so no entry is ever `undefined`.
   */
  lemma ProjectionContents(result: Record, keys: seq<string>)
    ensures Projection(result, keys).Keys == set k | k in keys
    ensures forall k :: k in keys ==>
              Projection(result, keys)[k] ==
              (if k in result && result[k] != Null && result[k] != Undefined then result[k] else Null)
    ensures Undefined !in Projection(result, keys).Values
  {
  }

  /** Asking for the same key twice gives the same record as asking once. */
  lemma ProjectionDuplicates(result: Record, keys: seq<string>, k: string)
    requires k in keys
    ensures Projection(result, keys + [k]) == Projection(result, keys)
  {
  }

  /**
   * `getLocalData` / `getSyncData` on `area`: the host query made and the
   * value the promise resolves with, given what the host returned.
   */
  method GetData(area: Area, keys: seq<string>, result: Record) returns (call: HostGet, data: Record)
    ensures call == HostGet(area, Query(keys))
    ensures |keys| == 0 ==> data == result
    ensures |keys| > 0 ==> data == Projection(result, keys)
  {
    call := HostGet(area, Query(keys));
    if |keys| == 0 {
      data := result;
    } else {
      data := Project(result, keys);
    }
  }

  /** `getLocalData`. */
  method GetLocalData(keys: seq<string>, result: Record) returns (call: HostGet, data: Record)
    ensures call == HostGet(Local, Query(keys))
    ensures |keys| == 0 ==> data == result
    ensures |keys| > 0 ==> data == Projection(result, keys)
  {
    call, data := GetData(Local, keys, result);
  }

  /** `getSyncData`. */
  method GetSyncData(keys: seq<string>, result: Record) returns (call: HostGet, data: Record)
    ensures call == HostGet(Sync, Query(keys))
    ensures |keys| == 0 ==> data == result
    ensures |keys| > 0 ==> data == Projection(result, keys)
  {
    call, data := GetData(Sync, keys, result);
  }

  /** `saveLocalData` / `saveSyncData`: the data reaches the host as given. */
  function SaveData(area: Area, data: Record): (call: HostSet)
    ensures call.area == area && call.data == data
  {
    HostSet(area, data)
  }

  /** `saveLocalData`. */
  function SaveLocalData(data: Record): (call: HostSet)
    ensures call == SaveData(Local, data)
  {
    SaveData(Local, data)
  }

  /** `saveSyncData`. */
  function SaveSyncData(data: Record): (call: HostSet)
    ensures call == SaveData(Sync, data)
  {
    SaveData(Sync, data)
  }

  /** `LocalStorage`: no state of its own, it delegates to the local-area helpers. */
  class LocalStorage {
    constructor()
    {
    }

    /** `get`: the zero-key helper when no key is given, the keyed one otherwise. */
    method Get(keys: seq<string>, result: Record) returns (call: HostGet, data: Record)
      ensures call == HostGet(Local, Query(keys))
      ensures |keys| == 0 ==> data == result
      ensures |keys| > 0 ==> data == Projection(result, keys)
    {
      if |keys| == 0 {
        call, data := GetLocalData([], result);
      } else {
        call, data := GetLocalData(keys, result);
      }
    }

    /** `set`. */
    function Set(data: Record): (call: HostSet)
      ensures call == HostSet(Local, data)
    {
      SaveLocalData(data)
    }
  }

  /** `SyncStorage`: the same over the sync area. */
  class SyncStorage {
    constructor()
    {
    }

    /** `get`. */
    method Get(keys: seq<string>, result: Record) returns (call: HostGet, data: Record)
      ensures call == HostGet(Sync, Query(keys))
      ensures |keys| == 0 ==> data == result
      ensures |keys| > 0 ==> data == Projection(result, keys)
    {
      if |keys| == 0 {
        call, data := GetSyncData([], result);
      } else {
        call, data := GetSyncData(keys, result);
      }
    }

    /** `set`. */
    function Set(data: Record): (call: HostSet)
      ensures call == HostSet(Sync, data)
    {
      SaveSyncData(data)
    }
  }

  // ---------------------------------------------------------------------
  // Against a model of the host store
  // ---------------------------------------------------------------------

  /**
   * The host's `set`: the given entries are written over the stored ones.
   * Values are serialized, so an entry whose value is `undefined` is
   * dropped and the stored value, if any, stays.
   */
  function ApplySet(store: Record, call: HostSet): (r: Record)
    ensures r.Keys == store.Keys + (set k | k in call.data && call.data[k] != Undefined)
    ensures forall k :: k in call.data && call.data[k] != Undefined ==> r[k] == call.data[k]
    ensures forall k :: k in store && (k !in call.data || call.data[k] == Undefined) ==> r[k] == store[k]
  {
    store + map k | k in call.data && call.data[k] != Undefined :: call.data[k]
  }

  /** The host's answer to a `get`: everything, or the stored entries among the requested keys. */
  function Answer(store: Record, call: HostGet): (r: Record)
    ensures call.query.None? ==> r == store
    ensures call.query.Some? ==> r.Keys == store.Keys * (set k | k in call.query.value)
    ensures forall k :: k in r ==> k in store && r[k] == store[k]
  {
    match call.query
    case None => store
    case Some(ks) => map k | k in ks && k in store :: store[k]
  }

  /**
   * Saving a record and then reading some of its keys gives back exactly
   * the saved values; keys that were not saved, or saved as `undefined`,
   * read as whatever was stored before, or `null`.
   */
  lemma SaveThenGet(area: Area, store: Record, saved: Record, keys: seq<string>)
    requires |keys| > 0
    ensures var after := ApplySet(store, SaveData(area, saved));
            var data := Projection(Answer(after, HostGet(area, Query(keys))), keys);
            && data.Keys == set k | k in keys
            && (forall k :: k in keys && k in saved && saved[k] != Undefined ==> data[k] == saved[k])
            && (forall k :: k in keys && (k !in saved || saved[k] == Undefined) ==> data[k] == Lookup(store, k))
  {
  }
}
