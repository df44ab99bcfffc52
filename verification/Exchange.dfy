/** One request through the cache: what happens before it is sent and after it is answered. */
module Exchange {
  import opened Prelude
  import opened Headers
  import opened Cache

  /** A fresh entry answers at once; anything else is sent, conditional on the
      entry's tag unless the caller set a tag of their own. */
  datatype Decision = Serve(hit: Response) | Send(tag: Option<string>, stale: Option<Entry>)

  function Begin(store: Store, key: Option<CacheKey>, callerTag: Option<string>, now: nat): Decision {
    if key.None? || key.value !in store then Send(callerTag, None)
    else
      var e := store[key.value];
      if IsFresh(e, now) then Serve(ToHit(e))
      else Send(if callerTag.Some? then callerTag else e.etag, Some(e))
  }

  predicate IsSuccess(status: nat) {
    200 <= status < 300
  }

  /** What an answer does to the key's entry. */
  datatype Effect = Keep | Write(e: Entry) | Forget

  /** What an answer does to the cache, and what the caller gets. */
  function Finish(key: Option<CacheKey>, stale: Option<Entry>, r: Response, now: nat): (Effect, Response) {
    if key.None? then (Keep, r)
    else if r.status == 304 then
      if stale.None? then (Keep, r)
      else (Write(Revalidated(stale.value, r, now)),
            ToResponse(stale.value, Merged(stale.value.headers, r.headers), "revalidated"))
    else if IsSuccess(r.status) then
      if !IsCacheable(r, now) then (if stale.Some? then Forget else Keep, r)
      else (if FromParts(r, now).Some? then Write(FromParts(r, now).value) else Keep, r)
    else (Keep, r)
  }

  function Updated(store: Store, key: CacheKey, effect: Effect, now: nat): Store {
    match effect
    case Keep => store
    case Write(e) => Put(store, key, e, now)
    case Forget => store - {key}
  }

  /** The same on a cache that never evicts. */
  function UpdatedIdeal(store: Store, key: CacheKey, effect: Effect): Store {
    match effect
    case Keep => store
    case Write(e) => store[key := e]
    case Forget => store - {key}
  }

  /** The cache once a request is over; a request that got no answer changes nothing. */
  function StoreAfter(store: Store, key: Option<CacheKey>, stale: Option<Entry>, answer: Option<Response>,
                      now: nat): Store {
    if key.None? || answer.None? then store
    else Updated(store, key.value, Finish(key, stale, answer.value, now).0, now)
  }

  function ReplyTo(key: Option<CacheKey>, stale: Option<Entry>, answer: Option<Response>, now: nat): Option<Response> {
    if answer.None? then None else Some(Finish(key, stale, answer.value, now).1)
  }
}
