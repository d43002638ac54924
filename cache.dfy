/**
 * The Redis store behind the `/v1` handler, reduced to what the handler
 * uses: `getBuffer` on a key and `set key value EX seconds`. Time is a
 * parameter in milliseconds; an entry stays readable up to and including
 * its expiry instant and is gone after it.
 */
module Cache {
  import opened Wrappers
  import opened Strings

  /** A stored value and the instant, in milliseconds, at which it expires. */
  datatype Entry = Entry(bytes: seq<Byte>, expiresAt: int)

  type Store = map<string, Entry>

  /** Whether `key` holds a value that has not expired at `now`. */
  predicate Live(store: Store, key: string, now: int) {
    key in store && now <= store[key].expiresAt
  }

  /** `GET`: the stored bytes while the entry is live, nothing otherwise. */
  function Read(store: Store, key: string, now: int): (r: Option<seq<Byte>>)
    ensures r.Some? <==> Live(store, key, now)
    ensures r.Some? ==> r.value == store[key].bytes
  {
    if key in store && now <= store[key].expiresAt then Some(store[key].bytes) else None
  }

  /** `SET key bytes EX seconds`: the key is overwritten with a fresh expiry. */
  function Write(store: Store, key: string, bytes: seq<Byte>, seconds: nat, now: int): (r: Store)
    ensures key in r && r[key] == Entry(bytes, now + seconds * 1000)
    ensures forall k :: k != key ==> (k in r <==> k in store)
    ensures forall k :: k != key && k in store ==> r[k] == store[k]
  {
    store[key := Entry(bytes, now + seconds * 1000)]
  }

  /** A written value reads back for exactly `seconds` seconds after the write, and not after. */
  lemma ReadAfterWrite(store: Store, key: string, bytes: seq<Byte>, seconds: nat, now: int, later: int)
    requires now <= later
    ensures later <= now + seconds * 1000 ==> Read(Write(store, key, bytes, seconds, now), key, later) == Some(bytes)
    ensures later > now + seconds * 1000 ==> Read(Write(store, key, bytes, seconds, now), key, later) == None
  {
  }

  /** A write leaves every other key reading as before. */
  lemma WriteKeepsOthers(store: Store, key: string, bytes: seq<Byte>, seconds: nat, now: int, other: string, at: int)
    requires other != key
    ensures Read(Write(store, key, bytes, seconds, now), other, at) == Read(store, other, at)
  {
  }

  /** The Redis client the server holds: its store changes only through `Set`. */
  class Client {
    var entries: Store

    constructor (initial: Store)
      ensures entries == initial
    {
      entries := initial;
    }

    /** `cache.getBuffer(key)`: null (None) for a missing or expired key. */
    method GetBuffer(key: string, now: int) returns (r: Option<seq<Byte>>)
      ensures r.Some? <==> Live(entries, key, now)
      ensures r.Some? ==> r.value == entries[key].bytes
    {
      if key in entries && now <= entries[key].expiresAt {
        r := Some(entries[key].bytes);
      } else {
        r := None;
      }
    }

    /** `cache.set(key, bytes, 'EX', seconds)`, taking effect at once. */
    method Set(key: string, bytes: seq<Byte>, seconds: nat, now: int)
      modifies this
      ensures entries == Write(old(entries), key, bytes, seconds, now)
    {
      entries := entries[key := Entry(bytes, now + seconds * 1000)];
    }
  }
}
