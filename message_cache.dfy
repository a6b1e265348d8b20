/**
 * The recovery cache: one JSON record per session under the key
 * `"sessionCache_" + sessionId` in the shared storage. Empty arguments make
 * `save` a no-op, a failing write is swallowed, and text that does not read
 * as a record is a cache miss.
 */
module UtilMessageCache {
  import opened Wrappers
  import opened CacheJson
  import WebStorage

  const CachePrefix := "sessionCache_"

  /** The storage key of a session's record. */
  function CacheKey(sessionId: string): (k: string)
    ensures CachePrefix <= k
    ensures k[|CachePrefix|..] == sessionId
  {
    CachePrefix + sessionId
  }

  /** Keys of different sessions differ, so sessions never share an entry. */
  lemma CacheKeyInjective(s: string, t: string)
    requires CacheKey(s) == CacheKey(t)
    ensures s == t
  {
  }

  /** The store after `save(sessionId, content, lastChunkId)`. */
  function SavedItems(items: map<string, string>, sessionId: string, content: string,
                      lastChunkId: Option<string>, quotaExceeded: bool): (r: map<string, string>)
    ensures sessionId == "" || content == "" || quotaExceeded ==> r == items
    ensures r.Keys <= items.Keys + {CacheKey(sessionId)}
    ensures forall k :: k in items && k != CacheKey(sessionId) ==> k in r && r[k] == items[k]
  {
    if sessionId == "" || content == "" || quotaExceeded then items
    else items[CacheKey(sessionId) := Serialize(CacheData(content, lastChunkId))]
  }

  /** What `get(sessionId)` returns for a store. */
  function Read(items: map<string, string>, sessionId: string): (r: Option<CacheData>)
    ensures sessionId == "" ==> r == None
    ensures CacheKey(sessionId) !in items ==> r == None
  {
    if sessionId == "" then None
    else
      match WebStorage.Lookup(items, CacheKey(sessionId))
      case None => None
      case Some(raw) => if raw == "" then None else Parse(raw)
  }

  /** The store after `remove(sessionId)`. */
  function RemovedItems(items: map<string, string>, sessionId: string): (r: map<string, string>)
    ensures sessionId == "" ==> r == items
    ensures sessionId != "" ==> CacheKey(sessionId) !in r
    ensures forall k :: k != CacheKey(sessionId) ==> (k in r <==> k in items)
    ensures forall k :: k in r ==> r[k] == items[k]
  {
    if sessionId == "" then items else items - {CacheKey(sessionId)}
  }

  class MessageCache {
    const storage: WebStorage.Storage

    constructor (storage: WebStorage.Storage)
      ensures this.storage == storage
    {
      this.storage := storage;
    }

    method Save(sessionId: string, content: string, lastChunkId: Option<string>, quotaExceeded: bool)
      modifies storage
      ensures storage.items == SavedItems(old(storage.items), sessionId, content, lastChunkId, quotaExceeded)
    {
      if sessionId == "" || content == "" {
        return;
      }
      var data := CacheData(content, lastChunkId);
      var _ := storage.SetItem(CacheKey(sessionId), Serialize(data), quotaExceeded);
    }

    method Get(sessionId: string) returns (r: Option<CacheData>)
      ensures r == Read(storage.items, sessionId)
    {
      if sessionId == "" {
        return None;
      }
      var raw := storage.GetItem(CacheKey(sessionId));
      if raw == None || raw.value == "" {
        return None;
      }
      r := Parse(raw.value);
    }

    method Remove(sessionId: string)
      modifies storage
      ensures storage.items == RemovedItems(old(storage.items), sessionId)
    {
      if sessionId == "" {
        return;
      }
      storage.RemoveItem(CacheKey(sessionId));
    }

    method Has(sessionId: string) returns (b: bool)
      ensures b <==> Read(storage.items, sessionId).Some?
    {
      var r := Get(sessionId);
      b := r != None;
    }
  }

  /** After a successful save, `get` returns exactly what was saved. */
  lemma GetAfterSave(items: map<string, string>, sessionId: string, content: string, lastChunkId: Option<string>)
    requires sessionId != "" && content != ""
    ensures Read(SavedItems(items, sessionId, content, lastChunkId, false), sessionId)
            == Some(CacheData(content, lastChunkId))
  {
    RoundTrip(CacheData(content, lastChunkId));
  }

  /** A save fully replaces the earlier record of the same session: last write wins. */
  lemma SaveOverwrites(items: map<string, string>, sessionId: string,
                       c1: string, id1: Option<string>, c2: string, id2: Option<string>)
    requires sessionId != "" && c1 != "" && c2 != ""
    ensures SavedItems(SavedItems(items, sessionId, c1, id1, false), sessionId, c2, id2, false)
            == SavedItems(items, sessionId, c2, id2, false)
  {
  }

  /** Saving or removing one session does not change what another session reads. */
  lemma SessionsIsolated(items: map<string, string>, s: string, t: string,
                                            content: string, lastChunkId: Option<string>, quotaExceeded: bool)
    requires s != t
    ensures Read(SavedItems(items, s, content, lastChunkId, quotaExceeded), t) == Read(items, t)
    ensures Read(RemovedItems(items, s), t) == Read(items, t)
  {
  }

  /** After `remove(s)` with a non-empty `s`, `get(s)` misses. */
  lemma GetAfterRemove(items: map<string, string>, sessionId: string)
    requires sessionId != ""
    ensures Read(RemovedItems(items, sessionId), sessionId) == None
  {
  }

  /** An entry whose text does not read as a record is a miss, not a failure. */
  lemma CorruptEntryMisses(items: map<string, string>, sessionId: string)
    requires CacheKey(sessionId) in items && Parse(items[CacheKey(sessionId)]) == None
    ensures Read(items, sessionId) == None
  {
  }

  /** No cache key is the token store's key. */
  lemma CacheKeyNotToken(sessionId: string)
    ensures CacheKey(sessionId) != "token"
  {
  }
}
