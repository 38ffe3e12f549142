/**
 * `get_iap_key`: the IAP signing-key cache. A key id is looked up in the cache; on a miss
 * (an absent or empty value) the key file is fetched once, a response other than 200 is an
 * error, and otherwise the cache is replaced by the fetched key map and the key id is looked
 * up again, its absence being an error.
 *
 * The HTTP request is outside the model: each call is given the response the key
 * endpoint would give, which is only consulted on a miss.
 */
module KeyCache {
  import opened Wrappers

  const HttpOk: int := 200

  /** A response of the key endpoint: status, the header and body text, and the decoded JSON key map. */
  datatype KeyResponse = KeyResponse(status: int, headers: string, text: string, keys: map<string, string>)

  datatype KeyError =
    /** "Unable to fetch IAP keys: status / headers / text". */
    | FetchFailed(status: int, headers: string, text: string)
    /** "Key ... not found" after a successful fetch. */
    | KeyNotFound(keyId: string)

  /** `key_cache.get(key_id)` is truthy: the id is present with a non-empty key. */
  predicate Holds(cache: map<string, string>, keyId: string)
  {
    keyId in cache && cache[keyId] != []
  }

  /** One `get_iap_key` call: what it returns, the cache it leaves and whether it fetched. */
  datatype Lookup = Lookup(result: Result<string, KeyError>, cache: map<string, string>, fetched: bool)

  function KeyLookup(cache: map<string, string>, keyId: string, response: KeyResponse): (r: Lookup)
    // a hit returns the cached key, does not fetch and leaves the cache alone
    ensures Holds(cache, keyId) ==> r == Lookup(Ok(cache[keyId]), cache, false)
    // a miss fetches exactly once
    ensures r.fetched <==> !Holds(cache, keyId)
    // a failed fetch raises before the cache is touched
    ensures !Holds(cache, keyId) && response.status != HttpOk ==>
      r.result == Err(FetchFailed(response.status, response.headers, response.text)) && r.cache == cache
    // a successful fetch replaces the cache wholesale and answers from the fetched map
    ensures !Holds(cache, keyId) && response.status == HttpOk ==>
      && r.cache == response.keys
      && r.result == (if Holds(response.keys, keyId) then Ok(response.keys[keyId]) else Err(KeyNotFound(keyId)))
    // whatever is returned is a non-empty key the resulting cache holds
    ensures r.result.Ok? ==> Holds(r.cache, keyId) && r.result.value == r.cache[keyId]
    // the cache is either kept or replaced, never merged
    ensures r.cache == cache || r.cache == response.keys
  {
    if Holds(cache, keyId) then Lookup(Ok(cache[keyId]), cache, false)
    else if response.status != HttpOk then
      Lookup(Err(FetchFailed(response.status, response.headers, response.text)), cache, true)
    else if Holds(response.keys, keyId) then Lookup(Ok(response.keys[keyId]), response.keys, true)
    else Lookup(Err(KeyNotFound(keyId)), response.keys, true)
  }

  /** Once a key has been returned, asking for it again is a hit, whatever the endpoint would answer. */
  lemma LookupMemoizes(cache: map<string, string>, keyId: string, first: KeyResponse, second: KeyResponse)
    requires KeyLookup(cache, keyId, first).result.Ok?
    ensures var l1 := KeyLookup(cache, keyId, first);
            var l2 := KeyLookup(l1.cache, keyId, second);
            l2 == Lookup(l1.result, l1.cache, false)
  {
  }

  /** A key id missing from a fetched map keeps missing: the next call fetches again. */
  lemma NotFoundRefetches(cache: map<string, string>, keyId: string, first: KeyResponse, second: KeyResponse)
    requires KeyLookup(cache, keyId, first).result == Err(KeyNotFound(keyId))
    ensures KeyLookup(KeyLookup(cache, keyId, first).cache, keyId, second).fetched
  {
  }

  /** The cache shared by the provider's calls, created empty and replaced on a successful re-fetch. */
  class IapKeyCache {
    var keys: map<string, string>
    /** Number of key-file fetches performed so far. */
    ghost var fetches: nat

    constructor ()
      ensures keys == map[] && fetches == 0
    {
      keys := map[];
      fetches := 0;
    }

    method GetKey(keyId: string, response: KeyResponse) returns (r: Result<string, KeyError>)
      modifies this
      ensures var l := KeyLookup(old(keys), keyId, response);
              && r == l.result
              && keys == l.cache
              && fetches == old(fetches) + (if l.fetched then 1 else 0)
    {
      var key := if keyId in keys then keys[keyId] else [];
      if key == [] {
        // re-fetch the key file
        fetches := fetches + 1;
        if response.status != HttpOk {
          return Err(FetchFailed(response.status, response.headers, response.text));
        }
        keys := response.keys;
        key := if keyId in keys then keys[keyId] else [];
        if key == [] {
          return Err(KeyNotFound(keyId));
        }
      }
      return Ok(key);
    }
  }
}
