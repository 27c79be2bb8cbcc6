/** The Redis-backed cache of details_microservice/cache.py.

    The Redis database is modelled as a map from key to entry plus a clock
    counting whole seconds. An entry remembers its value and the second at
    which it expires; it is visible while the clock is before that second.
    JSON encoding on the way in and decoding on the way out is the identity. */
module Cache {
  import opened Json

  type Key = string

  /** Default time-to-live of an entry: one hour, in seconds. */
  const CacheTtl: int := 60 * 60

  datatype Entry = Entry(data: Value, expiresAt: nat)

  /** The whole Redis database and its clock. */
  datatype Store = Store(entries: map<Key, Entry>, now: nat)

  /** The entry under `key` exists and has not expired. */
  predicate Fresh(s: Store, key: Key) {
    key in s.entries && s.now < s.entries[key].expiresAt
  }

  /** GET then `json.loads`: the stored value while it is fresh, None otherwise. */
  function Lookup(s: Store, key: Key): (v: Value)
    ensures key !in s.entries ==> v == JNull
    ensures key in s.entries && s.entries[key].expiresAt <= s.now ==> v == JNull
    ensures Fresh(s, key) ==> v == s.entries[key].data
  {
    if Fresh(s, key) then s.entries[key].data else JNull
  }

  /** SETEX key ttl json.dumps(data). Redis refuses a non-positive expire
      time and then leaves the database as it was. */
  function Put(s: Store, key: Key, ttl: int, data: Value): (r: Store)
    ensures r.now == s.now
    ensures 0 < ttl ==> Lookup(r, key) == data
    ensures ttl <= 0 ==> r == s
    ensures forall k :: k != key ==> Lookup(r, k) == Lookup(s, k)
    ensures forall k :: k != key ==> (k in r.entries <==> k in s.entries)
    ensures forall k :: k != key && k in s.entries ==> r.entries[k] == s.entries[k]
  {
    if ttl <= 0 then s else s.(entries := s.entries[key := Entry(data, s.now + ttl)])
  }

  /** DEL key. */
  function Remove(s: Store, key: Key): (r: Store)
    ensures r.now == s.now
    ensures Lookup(r, key) == JNull
    ensures forall k :: k != key ==> Lookup(r, k) == Lookup(s, k)
    ensures key !in s.entries ==> r == s
  {
    assert key !in s.entries ==> s.entries - {key} == s.entries;
    s.(entries := s.entries - {key})
  }

  /** FLUSHDB. */
  function Flush(s: Store): (r: Store)
    ensures r.now == s.now
    ensures forall key :: Lookup(r, key) == JNull
  {
    s.(entries := map[])
  }

  /** Time passing between calls. */
  function Advance(s: Store, seconds: nat): Store {
    s.(now := s.now + seconds)
  }

  /** One call on the cache module, or some seconds passing. */
  datatype Op =
    | Set(key: Key, ttl: int, data: Value)
    | Delete(key: Key)
    | Clear
    | Elapse(seconds: nat)

  function Apply(s: Store, op: Op): Store {
    match op
    case Set(key, ttl, data) => Put(s, key, ttl, data)
    case Delete(key) => Remove(s, key)
    case Clear => Flush(s)
    case Elapse(seconds) => Advance(s, seconds)
  }

  /** The store after a sequence of calls, in order. */
  function Run(s: Store, ops: seq<Op>): Store
    decreases |ops|
  {
    if ops == [] then s else Run(Apply(s, ops[0]), ops[1..])
  }

  /** Seconds that pass during `ops`. */
  function Elapsed(ops: seq<Op>): nat
    decreases |ops|
  {
    if ops == [] then 0
    else (if ops[0].Elapse? then ops[0].seconds else 0) + Elapsed(ops[1..])
  }

  /** `op` may change what is stored under `key`. */
  predicate Touches(op: Op, key: Key) {
    match op
    case Set(k, _, _) => k == key
    case Delete(k) => k == key
    case Clear => true
    case Elapse(_) => false
  }

  lemma PutThenLookup(s: Store, key: Key, ttl: int, data: Value, seconds: nat)
    requires 0 < ttl && seconds < ttl
    ensures Lookup(Advance(Put(s, key, ttl, data), seconds), key) == data
  {
  }

  lemma PutExpires(s: Store, key: Key, ttl: int, data: Value, seconds: nat)
    requires 0 < ttl <= seconds
    ensures Lookup(Advance(Put(s, key, ttl, data), seconds), key) == JNull
  {
  }

  /** A write replaces the value and restarts the expiry; nothing of the
      earlier entry survives. */
  lemma PutOverwrites(s: Store, key: Key, ttl1: int, data1: Value, ttl2: int, data2: Value)
    requires 0 < ttl2
    ensures Put(Put(s, key, ttl1, data1), key, ttl2, data2) == Put(s, key, ttl2, data2)
  {
  }

  /** Calls that do not touch a fresh key, and do not outlast it, leave its
      entry as it was. */
  lemma {:induction false} UntouchedStaysFresh(s: Store, ops: seq<Op>, key: Key)
    requires key in s.entries && s.now + Elapsed(ops) < s.entries[key].expiresAt
    requires forall i :: 0 <= i < |ops| ==> !Touches(ops[i], key)
    ensures Run(s, ops).now == s.now + Elapsed(ops)
    ensures key in Run(s, ops).entries && Run(s, ops).entries[key] == s.entries[key]
    decreases |ops|
  {
    if ops != [] {
      var next := Apply(s, ops[0]);
      assert !Touches(ops[0], key);
      assert key in next.entries && next.entries[key] == s.entries[key];
      forall i | 0 <= i < |ops[1..]| ensures !Touches(ops[1..][i], key) {
        assert ops[1..][i] == ops[i + 1];
      }
      UntouchedStaysFresh(next, ops[1..], key);
    }
  }

  /** After `set_in_cache(key, data, ttl)`, `get_from_cache(key)` returns
      `data` at any later time before the ttl runs out, whatever other keys
      are written or deleted in between. */
  lemma SetThenGetWithinTtl(s: Store, key: Key, ttl: int, data: Value, ops: seq<Op>)
    requires 0 < ttl && Elapsed(ops) < ttl
    requires forall i :: 0 <= i < |ops| ==> !Touches(ops[i], key)
    ensures Lookup(Run(Put(s, key, ttl, data), ops), key) == data
  {
    UntouchedStaysFresh(Put(s, key, ttl, data), ops, key);
  }

  /** Once as many seconds have passed as an entry had left, and the key has
      not been written again, `get_from_cache` returns None. */
  lemma {:induction false} ExpiresUnlessRewritten(s: Store, ops: seq<Op>, key: Key)
    requires forall i :: 0 <= i < |ops| ==> !(ops[i].Set? && ops[i].key == key)
    requires key in s.entries ==> s.entries[key].expiresAt <= s.now + Elapsed(ops)
    ensures Lookup(Run(s, ops), key) == JNull
    decreases |ops|
  {
    if ops != [] {
      var next := Apply(s, ops[0]);
      forall i | 0 <= i < |ops[1..]| ensures !(ops[1..][i].Set? && ops[1..][i].key == key) {
        assert ops[1..][i] == ops[i + 1];
      }
      ExpiresUnlessRewritten(next, ops[1..], key);
    }
  }

  lemma SetThenExpires(s: Store, key: Key, ttl: int, data: Value, ops: seq<Op>)
    requires 0 < ttl <= Elapsed(ops)
    requires forall i :: 0 <= i < |ops| ==> !(ops[i].Set? && ops[i].key == key)
    ensures Lookup(Run(Put(s, key, ttl, data), ops), key) == JNull
  {
    ExpiresUnlessRewritten(Put(s, key, ttl, data), ops, key);
  }

  /** The module-level `redis_client` and the functions of cache.py over it. */
  class CacheClient {
    var entries: map<Key, Entry>
    var now: nat

    function State(): Store
      reads this
    {
      Store(entries, now)
    }

    constructor (start: nat)
      ensures State() == Store(map[], start)
    {
      entries := map[];
      now := start;
    }

    method GetFromCache(key: Key) returns (data: Value)
      ensures data == Lookup(State(), key)
    {
      if key in entries && now < entries[key].expiresAt {
        data := entries[key].data;
      } else {
        data := JNull;
      }
    }

    method SetInCache(key: Key, data: Value, ttl: int := CacheTtl)
      modifies this
      ensures State() == Put(old(State()), key, ttl, data)
    {
      if 0 < ttl {
        entries := entries[key := Entry(data, now + ttl)];
      }
    }

    method DeleteFromCache(key: Key)
      modifies this
      ensures State() == Remove(old(State()), key)
    {
      entries := entries - {key};
    }

    method ClearCache()
      modifies this
      ensures State() == Flush(old(State()))
    {
      entries := map[];
    }

    /** The clock moving on between calls. */
    method Elapse(seconds: nat)
      modifies this
      ensures State() == Advance(old(State()), seconds)
    {
      now := now + seconds;
    }
  }
}
