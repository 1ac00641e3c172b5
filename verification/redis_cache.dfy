/**
 The cache adapter over the remote key-value store.

 The store is an abstract map from keys to entries. Whether the network
 round trip to the store fails is a parameter `fault` of each call. Entries
 record the expiration they were written with; time passing, and so entries
 expiring, is not modelled.
 */
module RedisCache {
  import opened Wrappers
  import opened Hex

  /** `time.Duration` units, in nanoseconds. */
  const Second: int := 1_000_000_000
  const Hour: int := 3600 * Second

  /** The expiration used when a caller passes 0: 24 hours. */
  const DefaultExpiration: int := 24 * Hour

  datatype Entry = Entry(value: seq<byte>, expiration: int)

  type Store = map<string, Entry>

  /** The adapter: whether it holds a client, and the store that client reaches. */
  datatype Cache = Cache(hasClient: bool, store: Store)

  /**
   Why a call failed. The source wraps all of these in one `error`; they are
   kept apart here so that the handler's treatment of them is visible.
   */
  datatype CacheError =
    | NoClient          // no client was provided
    | EmptyKey          // get with an empty key
    | InvalidArguments  // set with an empty key or a nil value
    | KeyMissing        // the store has no entry for the key
    | StoreUnavailable  // the round trip to the store failed

  /** Reads a key: guards first, then one round trip to the store. */
  function GetCachedResponse(c: Cache, key: string, fault: bool): (r: Result<seq<byte>, CacheError>)
    ensures !c.hasClient ==> r == Failure(NoClient)
    ensures c.hasClient && key == "" ==> r == Failure(EmptyKey)
    ensures c.hasClient && key != "" && fault ==> r == Failure(StoreUnavailable)
    ensures r.Success? <==> c.hasClient && key != "" && !fault && key in c.store
    ensures r.Success? ==> r.value == c.store[key].value
  {
    if !c.hasClient then Failure(NoClient)
    else if key == "" then Failure(EmptyKey)
    else if fault then Failure(StoreUnavailable)
    else if key !in c.store then Failure(KeyMissing)
    else Success(c.store[key].value)
  }

  /** The error (if any) of a write, and the adapter afterwards. */
  datatype SetOutcome = SetOutcome(error: Option<CacheError>, cache: Cache)

  /** The expiration a write actually uses: 0 means the default. */
  function EffectiveExpiration(expiration: int): (e: int)
    ensures expiration == 0 ==> e == DefaultExpiration
    ensures expiration != 0 ==> e == expiration
    ensures e != 0
  {
    if expiration == 0 then DefaultExpiration else expiration
  }

  /**
   Writes a key; `value == None` is a nil slice. Every failure leaves the
   store as it was; a success overwrites exactly the one key.
   */
  function SetCachedResponse(c: Cache, key: string, value: Option<seq<byte>>, expiration: int,
                             fault: bool): (r: SetOutcome)
    ensures !c.hasClient ==> r.error == Some(NoClient)
    ensures c.hasClient && (key == "" || value.None?) ==> r.error == Some(InvalidArguments)
    ensures r.error.None? <==> c.hasClient && key != "" && value.Some? && !fault
    ensures r.error.Some? ==> r.cache == c
    ensures r.error.None? ==>
      r.cache == c.(store := c.store[key := Entry(value.value, EffectiveExpiration(expiration))])
    ensures r.cache.hasClient == c.hasClient
  {
    if !c.hasClient then SetOutcome(Some(NoClient), c)
    else if key == "" || value.None? then SetOutcome(Some(InvalidArguments), c)
    else if fault then SetOutcome(Some(StoreUnavailable), c)
    else SetOutcome(None, c.(store := c.store[key := Entry(value.value, EffectiveExpiration(expiration))]))
  }

  /** The guarded failures of a read do not depend on the store at all. */
  lemma GetGuardsIgnoreStore(c: Cache, key: string, other: Store, fault: bool, fault': bool)
    requires !c.hasClient || key == ""
    ensures GetCachedResponse(c, key, fault) == GetCachedResponse(c.(store := other), key, fault')
    ensures GetCachedResponse(c, key, fault).Failure?
  {
  }

  /** A successful write followed by a read of the same key returns the written bytes. */
  lemma SetThenGet(c: Cache, key: string, value: seq<byte>, expiration: int, getFault: bool)
    requires SetCachedResponse(c, key, Some(value), expiration, false).error.None?
    ensures var c' := SetCachedResponse(c, key, Some(value), expiration, false).cache;
      && GetCachedResponse(c', key, getFault) == (if getFault then Failure(StoreUnavailable) else Success(value))
      && c'.store[key].expiration == EffectiveExpiration(expiration)
  {
  }

  /** A write never disturbs what a read of another key returns. */
  lemma SetLeavesOtherKeys(c: Cache, key: string, value: Option<seq<byte>>, expiration: int,
                           setFault: bool, other: string, getFault: bool)
    requires other != key
    ensures var c' := SetCachedResponse(c, key, value, expiration, setFault).cache;
      GetCachedResponse(c', other, getFault) == GetCachedResponse(c, other, getFault)
  {
  }

  /**
   An absent key and a failed round trip are distinct errors of the adapter;
   it is the handler that treats both as a miss.
   */
  lemma MissingIsNotUnavailable(c: Cache, key: string)
    requires c.hasClient && key != "" && key !in c.store
    ensures GetCachedResponse(c, key, false) == Failure(KeyMissing)
    ensures GetCachedResponse(c, key, true) == Failure(StoreUnavailable)
  {
  }
}
