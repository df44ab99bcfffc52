/** Cached responses and the in-memory cache that holds them. */
module Cache {
  import opened Prelude
  import opened Headers
  import opened Text

  const MAX_ENTRIES: nat := 8192
  const MAX_FRESHNESS: nat := 24 * 3600 * 1_000_000_000
  const CACHE_STATUS_HEADER: string := "x-esi-client-cache"

  datatype CacheKey = CacheKey(url: string, principal: Option<string>)

  /** A response, with its `Expires` and `Date` values as parsed, in nanoseconds. */
  datatype Response = Response(status: nat, headers: HeaderMap, body: string, expires: Option<int>, date: Option<int>)

  datatype Entry = Entry(status: nat, headers: HeaderMap, body: string, etag: Option<string>, expiresAt: Option<nat>)

  type Store = map<CacheKey, Entry>

  predicate IsFresh(e: Entry, now: nat) {
    e.expiresAt.Some? && now < e.expiresAt.value
  }

  /** When a response stops being fresh: its lifetime by the server's own clock,
      at most a day, from now. */
  function ExpiresFrom(r: Response, now: nat): Option<nat> {
    if r.expires.None? then None else
    var lifetime := r.expires.value - if r.date.Some? then r.date.value else now;
    if lifetime <= 0 then None else Some(now + Min(lifetime, MAX_FRESHNESS))
  }

  predicate IsCacheable(r: Response, now: nat) {
    "etag" in r.headers || ExpiresFrom(r, now).Some?
  }

  function FromParts(r: Response, now: nat): Option<Entry> {
    var expiresAt, etag := ExpiresFrom(r, now), Get(r.headers, "etag");
    if expiresAt.None? && etag.None? then None
    else Some(Entry(r.status, Stripped(r.headers), r.body, etag, expiresAt))
  }

  /** A stale entry confirmed by a 304. */
  function Revalidated(e: Entry, r: Response, now: nat): Entry {
    var expiresAt, etag := ExpiresFrom(r, now), Get(r.headers, "etag");
    Entry(e.status, Stripped(Merged(e.headers, r.headers)), e.body,
          if etag.Some? then etag else e.etag,
          if expiresAt.Some? then expiresAt else e.expiresAt)
  }

  /** An answer built from an entry, marked with how the cache was used. */
  function ToResponse(e: Entry, headers: HeaderMap, marker: string): Response {
    Response(e.status, headers[CACHE_STATUS_HEADER := [marker]], e.body, None, None)
  }

  function ToHit(e: Entry): Response {
    ToResponse(e, Stripped(e.headers), "hit")
  }

  function Put(store: Store, key: CacheKey, e: Entry, now: nat): Store {
    if |store| >= MAX_ENTRIES && key !in store
    then (map k | k in store && IsFresh(store[k], now) :: store[k])[key := e]
    else store[key := e]
  }

  // ----- the stored response as an object -----

  class CachedResponse {
    const status: nat
    var headers: HeaderMap
    const body: string
    var etag: Option<string>
    var expiresAt: Option<nat>

    constructor (e: Entry)
      ensures Parts() == e
    {
      status, headers, body, etag, expiresAt := e.status, e.headers, e.body, e.etag, e.expiresAt;
    }

    function Parts(): Entry
      reads this
    {
      Entry(status, headers, body, etag, expiresAt)
    }

    /** Applies a 304; returns the headers to answer with, the 304's own budget
        headers among them. */
    method Revalidate(r: Response, now: nat) returns (answer: HeaderMap)
      requires Proper(r.headers)
      modifies this
      ensures Parts() == Revalidated(old(Parts()), r, now)
      ensures answer == Merged(old(headers), r.headers)
    {
      var until := ExpiresFrom(r, now);
      if until.Some? {
        expiresAt := until;
      }
      var newTag := Get(r.headers, "etag");
      if newTag.Some? {
        etag := newTag;
      }
      answer := MergeHeaders(headers, r.headers);
      headers := StripBudgetHeaders(answer);
    }
  }

  // ----- operations, one after another -----

  datatype CacheOp = Insert(key: CacheKey, entry: Entry, after: nat) | Remove(key: CacheKey, after: nat)

  function AfterOp(store: Store, op: CacheOp, now: nat, bounded: bool): Store {
    match op
    case Insert(key, e, _) => if bounded then Put(store, key, e, now) else store[key := e]
    case Remove(key, _) => store - {key}
  }

  /** Applies operations one after another, evicting if `bounded`. */
  function Apply(store: Store, ops: seq<CacheOp>, now: nat, bounded: bool): (Store, nat)
    decreases |ops|
  {
    if ops == [] then (store, now) else
    var later := now + ops[0].after;
    Apply(AfterOp(store, ops[0], later, bounded), ops[1..], later, bounded)
  }

  lemma {:induction false} ApplyFirst(store: Store, ops: seq<CacheOp>, n: nat, now: nat)
    requires n < |ops|
    ensures var later := now + ops[n].after;
            Apply(store, ops[n..], now, true) == Apply(AfterOp(store, ops[n], later, true), ops[n + 1..], later, true)
  {
    assert ops[n..][0] == ops[n] && ops[n..][1..] == ops[n + 1..];
  }

  // ----- the default cache -----

  class MemoryCache {
    var entries: Store

    constructor ()
      ensures entries == map[]
    {
      entries := map[];
    }

    method Lookup(key: CacheKey) returns (found: Option<Entry>)
      ensures found == if key in entries then Some(entries[key]) else None
    {
      found := if key in entries then Some(entries[key]) else None;
    }

    method Insert(key: CacheKey, e: Entry, now: nat)
      modifies this
      ensures entries == Put(old(entries), key, e, now)
    {
      if |entries| >= MAX_ENTRIES && key !in entries {
        entries := map k | k in entries && IsFresh(entries[k], now) :: entries[k];
      }
      entries := entries[key := e];
    }

    method Remove(key: CacheKey)
      modifies this
      ensures entries == old(entries) - {key}
    {
      entries := entries - {key};
    }

    method Perform(op: CacheOp, now: nat)
      modifies this
      ensures entries == AfterOp(old(entries), op, now, true)
    {
      match op
      case Insert(key, e, _) => Insert(key, e, now);
      case Remove(key, _) => Remove(key);
    }

    /** What other requests do to the cache from `now` on. */
    method PerformAll(ops: seq<CacheOp>, now: nat)
      modifies this
      ensures entries == Apply(old(entries), ops, now, true).0
    {
      ghost var whole := Apply(entries, ops, now, true);
      var at: nat, n: nat := now, 0;
      assert ops[0..] == ops;
      while n < |ops|
        invariant n <= |ops| && Apply(entries, ops[n..], at, true) == whole
      {
        ApplyFirst(entries, ops, n, at);
        at := at + ops[n].after;
        Perform(ops[n], at);
        n := n + 1;
      }
    }
  }

  // ----- the bounded cache against one that never evicts -----

  /** The bounded cache holds nothing the ideal one lacks, and every entry of
      the ideal one that is still fresh. */
  ghost predicate Tracks(bounded: Store, ideal: Store, now: nat) {
    && (forall k :: k in bounded ==> k in ideal && ideal[k] == bounded[k])
    && (forall k :: k in ideal && IsFresh(ideal[k], now) ==> k in bounded)
  }

  lemma {:induction false} TimeTracks(bounded: Store, ideal: Store, now: nat, later: nat)
    requires Tracks(bounded, ideal, now) && now <= later
    ensures Tracks(bounded, ideal, later)
  {
    forall k | k in ideal && IsFresh(ideal[k], later) ensures k in bounded {
      assert IsFresh(ideal[k], now);
    }
  }

  lemma {:induction false} PutTracks(bounded: Store, ideal: Store, key: CacheKey, e: Entry, now: nat)
    requires Tracks(bounded, ideal, now)
    ensures Tracks(Put(bounded, key, e, now), ideal[key := e], now)
  {
    var kept := map k | k in bounded && IsFresh(bounded[k], now) :: bounded[k];
    forall k | k in ideal && IsFresh(ideal[k], now) ensures k in kept {
      assert bounded[k] == ideal[k];
    }
    assert Tracks(kept, ideal, now);
  }

  /** After any operations at non-decreasing instants the bounded cache answers
      every lookup of a fresh entry, and only what the ideal one would. */
  lemma {:induction false} BoundedRefinesIdeal(bounded: Store, ideal: Store, ops: seq<CacheOp>, now: nat)
    requires Tracks(bounded, ideal, now)
    ensures Apply(bounded, ops, now, true).1 == Apply(ideal, ops, now, false).1
    ensures Tracks(Apply(bounded, ops, now, true).0, Apply(ideal, ops, now, false).0, Apply(ideal, ops, now, false).1)
    decreases |ops|
  {
    if ops != [] {
      var later := now + ops[0].after;
      TimeTracks(bounded, ideal, now, later);
      match ops[0] {
        case Insert(key, e, _) =>
          PutTracks(bounded, ideal, key, e, later);
          BoundedRefinesIdeal(Put(bounded, key, e, later), ideal[key := e], ops[1..], later);
        case Remove(key, _) =>
          BoundedRefinesIdeal(bounded - {key}, ideal - {key}, ops[1..], later);
      }
    }
  }

  /** No insertion finds the cache full of other entries. */
  predicate RoomForAll(ideal: Store, ops: seq<CacheOp>, now: nat)
    decreases |ops|
  {
    ops == [] ||
      var later := now + ops[0].after;
      && (ops[0].Insert? && ops[0].key !in ideal ==> |ideal| < 8192)
      && RoomForAll(AfterOp(ideal, ops[0], later, false), ops[1..], later)
  }

  /** Until then the bounded cache forgets nothing, fresh or not: a stale entry is
      still there to be confirmed. */
  lemma {:induction false} KeptWhileRoom(store: Store, ops: seq<CacheOp>, now: nat)
    requires RoomForAll(store, ops, now)
    ensures Apply(store, ops, now, true) == Apply(store, ops, now, false)
    decreases |ops|
  {
    if ops != [] {
      var later := now + ops[0].after;
      KeptWhileRoom(AfterOp(store, ops[0], later, false), ops[1..], later);
    }
  }

  // ----- how large the bounded cache gets -----

  function FreshKeys(store: Store, now: nat): set<CacheKey> {
    set k | k in store && IsFresh(store[k], now)
  }

  /** No operation leaves the bounded cache with more than 8192 entries. */
  predicate WithinLimit(bounded: Store, ops: seq<CacheOp>, now: nat)
    decreases |ops|
  {
    ops == [] ||
      var later := now + ops[0].after;
      var next := AfterOp(bounded, ops[0], later, true);
      |next| <= 8192 && WithinLimit(next, ops[1..], later)
  }

  /** There is room for all entries that are fresh, the new one among them. */
  predicate RoomForFresh(ideal: Store, op: CacheOp, now: nat) {
    op.Insert? ==> |FreshKeys(ideal, now) + {op.key}| <= 8192
  }

  /** At every insertion there are no more fresh entries, counting the new one, than the limit. */
  predicate FewFresh(ideal: Store, ops: seq<CacheOp>, now: nat)
    decreases |ops|
  {
    ops == [] ||
      var later := now + ops[0].after;
      RoomForFresh(ideal, ops[0], later) && FewFresh(AfterOp(ideal, ops[0], later, false), ops[1..], later)
  }

  lemma {:induction false} InsertCount(store: Store, key: CacheKey, e: Entry)
    ensures |store[key := e]| == |store| + if key in store then 0 else 1
  {
    assert store[key := e].Keys == store.Keys + {key};
    if key in store {
      assert store.Keys + {key} == store.Keys;
    }
  }

  lemma {:induction false} SubsetCount<T>(a: set<T>, b: set<T>)
    requires a <= b
    ensures |a| <= |b|
  {
    if a != {} {
      var x :| x in a;
      SubsetCount(a - {x}, b - {x});
    }
  }

  lemma {:induction false} PutCount(bounded: Store, ideal: Store, key: CacheKey, e: Entry, now: nat)
    requires Tracks(bounded, ideal, now) && |bounded| <= MAX_ENTRIES
    ensures |Put(bounded, key, e, now)| <= MAX_ENTRIES <==> |FreshKeys(ideal, now) + {key}| <= MAX_ENTRIES
  {
    InsertCount(bounded, key, e);
    if |bounded| < MAX_ENTRIES || key in bounded {
      FreshAreHeld(bounded, ideal, key, e, now);
    } else {
      assert Put(bounded, key, e, now).Keys == FreshKeys(ideal, now) + {key};
    }
  }

  lemma {:induction false} FreshAreHeld(bounded: Store, ideal: Store, key: CacheKey, e: Entry, now: nat)
    requires Tracks(bounded, ideal, now)
    ensures |FreshKeys(ideal, now) + {key}| <= |bounded[key := e]|
  {
    assert bounded[key := e].Keys == bounded.Keys + {key};
    SubsetCount(FreshKeys(ideal, now) + {key}, bounded[key := e].Keys);
  }

  lemma {:induction false} OpTracks(bounded: Store, ideal: Store, op: CacheOp, now: nat)
    requires Tracks(bounded, ideal, now) && |bounded| <= MAX_ENTRIES
    ensures Tracks(AfterOp(bounded, op, now, true), AfterOp(ideal, op, now, false), now)
    ensures |AfterOp(bounded, op, now, true)| <= MAX_ENTRIES <==> RoomForFresh(ideal, op, now)
  {
    match op
    case Insert(key, e, _) =>
      PutTracks(bounded, ideal, key, e, now);
      PutCount(bounded, ideal, key, e, now);
    case Remove(key, _) =>
      SubsetCount((bounded - {key}).Keys, bounded.Keys);
  }

  lemma {:induction false} FirstOp(store: Store, ops: seq<CacheOp>, now: nat)
    requires ops != []
    ensures var later := now + ops[0].after;
            var held, kept := AfterOp(store, ops[0], later, true), AfterOp(store, ops[0], later, false);
            && WithinLimit(store, ops, now) == (|held| <= MAX_ENTRIES && WithinLimit(held, ops[1..], later))
            && FewFresh(store, ops, now) == (RoomForFresh(store, ops[0], later) && FewFresh(kept, ops[1..], later))
  {
  }

  /** The bounded cache stays within its limit in every run exactly when fresh
      entries never outnumber it: fresh entries are not evicted. */
  lemma {:induction false} BoundedExactly(bounded: Store, ideal: Store, ops: seq<CacheOp>, now: nat)
    requires Tracks(bounded, ideal, now) && |bounded| <= MAX_ENTRIES
    ensures WithinLimit(bounded, ops, now) <==> FewFresh(ideal, ops, now)
    decreases |ops|
  {
    if ops != [] {
      var later := now + ops[0].after;
      TimeTracks(bounded, ideal, now, later);
      OpTracks(bounded, ideal, ops[0], later);
      FirstOp(bounded, ops, now);
      FirstOp(ideal, ops, now);
      if RoomForFresh(ideal, ops[0], later) {
        BoundedExactly(AfterOp(bounded, ops[0], later, true), AfterOp(ideal, ops[0], later, false), ops[1..], later);
      }
    }
  }

  // ----- a run past the limit -----

  const LASTING := Entry(200, map[], "", None, Some(1))

  function Numbered(i: nat): CacheKey {
    CacheKey(Print(i), None)
  }

  function Filled(n: nat): Store {
    if n == 0 then map[] else Filled(n - 1)[Numbered(n - 1) := LASTING]
  }

  function Insertions(from: nat, n: nat): seq<CacheOp>
    decreases n - from
  {
    if from >= n then [] else [Insert(Numbered(from), LASTING, 0)] + Insertions(from + 1, n)
  }

  lemma {:induction false} FilledCount(n: nat, i: nat)
    ensures FreshKeys(Filled(n), 0) == Filled(n).Keys && |Filled(n)| == n
    ensures i >= n ==> Numbered(i) !in Filled(n)
  {
    if n > 0 {
      FilledCount(n - 1, i);
      FilledCount(n - 1, n - 1);
      InsertCount(Filled(n - 1), Numbered(n - 1), LASTING);
      PrintedValue(i);
      PrintedValue(n - 1);
    }
  }

  lemma {:induction false} TooManyFresh(i: nat, n: nat)
    requires i <= MAX_ENTRIES < n
    ensures !FewFresh(Filled(i), Insertions(i, n), 0)
    decreases n - i
  {
    FilledCount(i, i);
    assert Insertions(i, n)[1..] == Insertions(i + 1, n);
    if i == MAX_ENTRIES {
      InsertCount(Filled(i), Numbered(i), LASTING);
      assert Filled(i)[Numbered(i) := LASTING].Keys == FreshKeys(Filled(i), 0) + {Numbered(i)};
    } else {
      TooManyFresh(i + 1, n);
    }
  }

  /** One fresh page more than the limit, put one after another. */
  lemma {:induction false} LimitPassed()
    ensures !WithinLimit(map[], Insertions(0, MAX_ENTRIES + 1), 0)
  {
    BoundedExactly(map[], map[], Insertions(0, MAX_ENTRIES + 1), 0);
    TooManyFresh(0, MAX_ENTRIES + 1);
  }
}
