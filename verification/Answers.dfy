/** What callers get from the cache, header by header, and for how long. */
module Answers {
  import opened Prelude
  import opened Headers
  import opened Cache
  import opened Exchange

  /** The headers that describe the body they came with. */
  predicate OfTheBody(name: string) {
    || name == "content-length" || name == "content-type" || name == "content-encoding"
    || name == "content-range" || name == "transfer-encoding"
  }

  /** The headers that are true of the moment a response is sent. */
  predicate OfTheMoment(name: string) {
    StartsWith(name, "x-ratelimit-") || StartsWith(name, "x-esi-error-limit-")
  }

  const MARKER: string := "x-esi-client-cache"

  /** `answer` has, under `name`, what `from` has, if anything. */
  predicate Same(name: string, answer: HeaderMap, from: HeaderMap) {
    (name in answer <==> name in from) && (name in from ==> answer[name] == from[name])
  }

  /** The entry as stored, without what was true of its moment alone. */
  ghost predicate IsHitOf(hit: Response, e: Entry) {
    && hit.status == e.status && hit.body == e.body
    && MARKER in hit.headers && hit.headers[MARKER] == ["hit"]
    && forall name :: name != MARKER ==>
         if OfTheMoment(name) then name !in hit.headers else Same(name, hit.headers, e.headers)
  }

  /** The stored status and body and what describes it, and the 304's own values of
      every other header it has. */
  ghost predicate Confirms(answer: Response, stale: Entry, r: Response) {
    && answer.status == stale.status && answer.body == stale.body
    && MARKER in answer.headers && answer.headers[MARKER] == ["revalidated"]
    && forall name :: name != MARKER ==>
         Same(name, answer.headers, if OfTheBody(name) || name !in r.headers then stale.headers else r.headers)
  }

  lemma {:induction false} HitIsAsStored(e: Entry)
    ensures IsHitOf(ToHit(e), e)
  {
  }

  lemma {:induction false} RevalidatedIsBoth(key: CacheKey, stale: Entry, r: Response, now: nat)
    requires r.status == 304
    ensures var reply := ReplyTo(Some(key), Some(stale), Some(r), now);
            reply.Some? && Confirms(reply.value, stale, r)
  {
  }

  /** Whatever else the server answers is handed on as it came, budget headers and all. */
  lemma {:induction false} OthersPass(key: Option<CacheKey>, stale: Option<Entry>, r: Response, now: nat)
    requires key.None? || stale.None? || r.status != 304
    ensures ReplyTo(key, stale, Some(r), now) == Some(r)
  {
  }

  // ----- from one answer to the next -----

  /** How long the server says its answer is good for, by its own clock if it tells it. */
  function Lifetime(r: Response, now: nat): int {
    match (r.expires, r.date)
    case (None, _) => 0
    case (Some(until), Some(sent)) => until - sent
    case (Some(until), None) => until - now
  }

  /** Good at `t`: within the lifetime, and within a day, of when it was handled. */
  predicate GoodAt(r: Response, now: nat, t: nat) {
    t - now < Lifetime(r, now) && t - now < 86_400_000_000_000
  }

  ghost predicate Storable(r: Response, now: nat) {
    && 200 <= r.status < 300 && Proper(r.headers)
    && ("etag" in r.headers || Lifetime(r, now) > 0)
  }

  /** A storable answer is stored, and from then on served without asking exactly
      while it is good; after that the next request asks with its tag. */
  lemma {:induction false} ServedWhileGood(store: Store, key: CacheKey, stale: Option<Entry>, r: Response, now: nat,
                                           t: nat)
    requires Storable(r, now) && t >= now
    ensures var after := StoreAfter(store, Some(key), stale, Some(r), now);
            && key in after
            && (Begin(after, Some(key), None, t).Serve? <==> GoodAt(r, now, t))
            && (!GoodAt(r, now, t) ==>
                  Begin(after, Some(key), None, t)
                  == Send(if "etag" in r.headers then Some(r.headers["etag"][0]) else None, Some(after[key])))
  {
  }

  /** What is stored: status and body, and every header but those of the moment. */
  lemma {:induction false} StoredAsSent(store: Store, key: CacheKey, stale: Option<Entry>, r: Response, now: nat,
                                        name: string)
    requires Storable(r, now)
    ensures var after := StoreAfter(store, Some(key), stale, Some(r), now);
            && key in after && after[key].status == r.status && after[key].body == r.body
            && (if OfTheMoment(name) then name !in after[key].headers else Same(name, after[key].headers, r.headers))
  {
  }

  /** An answer worth nothing for later leaves no entry behind that was stale. */
  lemma {:induction false} UnstorableForgets(store: Store, key: CacheKey, stale: Entry, r: Response, now: nat)
    requires 200 <= r.status < 300 && !("etag" in r.headers || Lifetime(r, now) > 0)
    ensures key !in StoreAfter(store, Some(key), Some(stale), Some(r), now)
  {
  }

  /** An error, or a request that came to nothing, leaves the cache alone. */
  lemma {:induction false} ErrorsChangeNothing(store: Store, key: Option<CacheKey>, stale: Option<Entry>,
                                               answer: Option<Response>, now: nat)
    requires answer.Some? ==> answer.value.status != 304 && !(200 <= answer.value.status < 300)
    ensures StoreAfter(store, key, stale, answer, now) == store
    ensures ReplyTo(key, stale, answer, now) == answer
  {
  }

  /** A 304 makes the entry good again for as long as it says, or leaves it as it
      was if it says nothing; its tag, if any, is the one asked with next. */
  lemma {:induction false} GoodAgain(store: Store, key: CacheKey, stale: Entry, r: Response, now: nat, t: nat)
    requires r.status == 304 && Proper(r.headers) && t >= now
    ensures var after := StoreAfter(store, Some(key), Some(stale), Some(r), now);
            && key in after
            && (Begin(after, Some(key), None, t).Serve? <==>
                  if Lifetime(r, now) > 0 then GoodAt(r, now, t)
                  else stale.expiresAt.Some? && t < stale.expiresAt.value)
            && after[key].etag == (if "etag" in r.headers then Some(r.headers["etag"][0]) else stale.etag)
  {
  }

  /** What the entry then holds: header by header as answered, without those of the moment. */
  lemma {:induction false} StoredAgain(store: Store, key: CacheKey, stale: Entry, r: Response, now: nat, name: string)
    requires r.status == 304
    ensures var after := StoreAfter(store, Some(key), Some(stale), Some(r), now);
            && key in after && after[key].status == stale.status && after[key].body == stale.body
            && (if OfTheMoment(name) then name !in after[key].headers
                else Same(name, after[key].headers,
                          if OfTheBody(name) || name !in r.headers then stale.headers else r.headers))
  {
    assert StoreAfter(store, Some(key), Some(stale), Some(r), now)[key] == Revalidated(stale, r, now);
    LaidOver(stale.headers, r.headers, name);
  }

  lemma {:induction false} LaidOver(stored: HeaderMap, newer: HeaderMap, name: string)
    ensures var kept := Stripped(Merged(stored, newer));
            if OfTheMoment(name) then name !in kept
            else Same(name, kept, if OfTheBody(name) || name !in newer then stored else newer)
  {
    BudgetNamesDescribeNoBody(name);
  }

  /** A page's life: sent in full at `t0`, asked for again once it is no longer good,
      with its tag, and confirmed by a 304 at `t1`: the caller gets the page as it
      was sent, with what describes it, and the 304's other headers. */
  lemma {:induction false} PageComesBack(store: Store, key: CacheKey, page: Response, t0: nat, confirmed: Response,
                                         t1: nat, name: string)
    requires Storable(page, t0) && t0 <= t1 && !GoodAt(page, t0, t1) && "etag" in page.headers
    requires confirmed.status == 304
    ensures var after := StoreAfter(store, Some(key), None, Some(page), t0);
            var request := Begin(after, Some(key), None, t1);
            && request.Send? && request.tag == Some(page.headers["etag"][0]) && request.stale.Some?
            && (var answer := ReplyTo(Some(key), request.stale, Some(confirmed), t1);
                && answer.Some? && answer.value.status == page.status && answer.value.body == page.body
                && answer.value.headers[MARKER] == ["revalidated"]
                && (name != MARKER && !OfTheMoment(name) ==>
                      Same(name, answer.value.headers,
                           if OfTheBody(name) || name !in confirmed.headers then page.headers
                           else confirmed.headers))
                && (name != MARKER && OfTheMoment(name) ==> Same(name, answer.value.headers, confirmed.headers)))
  {
    ServedWhileGood(store, key, None, page, t0, t1);
    StoredAsSent(store, key, None, page, t0, name);
    var after := StoreAfter(store, Some(key), None, Some(page), t0);
    RevalidatedIsBoth(key, after[key], confirmed, t1);
    BudgetNamesDescribeNoBody(name);
  }
}
