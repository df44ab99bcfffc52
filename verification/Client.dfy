/** The request pipeline of one client: cache lookup, rate limit, network, bookkeeping. */
module Clients {
  import opened Prelude
  import opened Headers
  import opened Cache
  import opened Exchange
  import opened Answers
  import opened LimiterModel
  import opened ResponseFigures
  import opened RateLimiters
  import opened Waiting

  /** The limiter with an answer's figures recorded, if there is an answer. */
  function AfterAnswer(st: LimiterState, spec: SpecTable, op: string, answer: Option<Figures>, now: nat): LimiterState {
    if answer.Some? then RecordResponse(st, spec, op, answer.value, now) else st
  }

  /** The limiter once an answer is recorded, if one came, and the reservation given back. */
  function LimiterAfter(st: LimiterState, spec: SpecTable, op: string, reservation: Reservation,
                        answer: Option<Figures>, now: nat): LimiterState {
    GiveBack(AfterAnswer(st, spec, op, answer, now), reservation)
  }

  /** What one request asks of the limiter: the reservation goes back last. */
  function Round(r: Reservation, op: string, answer: Option<Figures>, now: nat): seq<Event> {
    [Took(r)] + (if answer.Some? then [Noted(op, answer.value, now)] else []) + [Returned(r)]
  }

  /** A finished request leaves in flight exactly what the others still hold,
      whatever happened between its admission and its answer. */
  lemma {:induction false} NothingStaysReserved(spec: SpecTable, m: Machine, k: nat, op: string,
                                                answer: Option<Figures>, answeredAt: nat, group: string)
    requires Sound(m) && k < |m.live| && group in m.limiter.buckets
    ensures var n := LimiterAfter(m.limiter, spec, op, m.live[k], answer, answeredAt);
            && group in n.buckets
            && n.buckets[group].inFlight == Outstanding(m.live[..k] + m.live[k + 1..], group)
  {
    if answer.Some? {
      RecordFlight(m.limiter, spec, op, answer.value, answeredAt, group);
    }
    OutstandingWithout(m.live, k, group);
    assert m.live[k] in m.live;
  }

  lemma {:induction false} OutstandingWithout(live: seq<Reservation>, k: nat, group: string)
    requires k < |live|
    ensures Outstanding(live, group) == Outstanding(live[..k] + live[k + 1..], group)
                                        + if live[k].group == Some(group) then live[k].tokens else 0
  {
    assert live == live[..k] + ([live[k]] + live[k + 1..]);
    OutstandingSplits(live[..k], [live[k]] + live[k + 1..], group);
    OutstandingSplits([live[k]], live[k + 1..], group);
    OutstandingSplits(live[..k], live[k + 1..], group);
  }

  /** Alone, it leaves every bucket's tokens in flight as it found them. */
  lemma {:induction false} NothingStaysReservedAlone(st: LimiterState, spec: SpecTable, op: string, admitted: nat,
                                                     answer: Option<Figures>, answeredAt: nat, group: string)
    requires !Poll(st, spec, op, admitted).1.Wait? && group in st.buckets
    ensures var (polled, result) := Poll(st, spec, op, admitted);
            var n := LimiterAfter(polled, spec, op, Granted(result), answer, answeredAt);
            group in n.buckets && n.buckets[group].inFlight == st.buckets[group].inFlight
  {
    PollFlight(st, spec, op, admitted, group);
    if answer.Some? {
      RecordFlight(Poll(st, spec, op, admitted).0, spec, op, answer.value, answeredAt, group);
    }
  }

  /** What became of a request: still waiting for tokens, served from the cache, or sent. */
  datatype Fate =
    | Asleep
    | Served(hit: Response)
    | Sent(at: nat, reservation: Reservation, answer: Option<Response>, reply: Option<Response>)

  /** A client's cache and limiter, and what the limiter was asked. */
  datatype Held = Held(store: Store, st: LimiterState, history: seq<Event>)

  /** One request the cache did not answer, from `before` to `after`, while others
      use the limiter and the cache: still waiting it touches the cache no further;
      sent, its answer is recorded before its
      reservation goes back, and cache and reply are what the answer calls for. */
  ghost predicate Follows(before: Held, after: Held, spec: SpecTable, key: Option<CacheKey>, stale: Option<Entry>,
                          op: string, now: nat, naps: seq<Nap>, latency: nat, during: seq<Deed>,
                          touched: seq<CacheOp>, answer: Option<Response>, figures: Option<Figures>, fate: Fate)
  {
    var (waited, outcome) := Waited(before.st, spec, op, now, naps);
    var store := Apply(before.store, touched, now, true).0;
    if outcome.StillWaiting? then fate == Asleep && after == before.(st := waited, store := store)
    else
      var answeredAt := outcome.at + latency;
      && fate == Sent(outcome.at, outcome.reservation, answer, ReplyTo(key, stale, answer, answeredAt))
      && after.st == LimiterAfter(DidAll(waited, spec, during), spec, op, outcome.reservation, figures, answeredAt)
      && after.history == before.history + Round(outcome.reservation, op, figures, answeredAt)
      && after.store == StoreAfter(store, key, stale, answer, answeredAt)
  }

  /** The cache once a request is let in and answered, or is still waiting. */
  ghost predicate CacheFollows(before: Store, after: Store, key: Option<CacheKey>, stale: Option<Entry>,
                               touched: seq<CacheOp>, now: nat, outcome: Outcome, answer: Option<Response>,
                               latency: nat, reply: Option<Response>)
  {
    var store := Apply(before, touched, now, true).0;
    match outcome
    case StillWaiting => after == store
    case LetIn(at, _) =>
      && reply == ReplyTo(key, stale, answer, at + latency)
      && after == StoreAfter(store, key, stale, answer, at + latency)
  }

  /** The limiter then: waited for, told of the answer, and given its tokens back. */
  ghost predicate LimiterFollows(before: Held, st: LimiterState, history: seq<Event>, spec: SpecTable, op: string,
                                 now: nat, naps: seq<Nap>, latency: nat, during: seq<Deed>,
                                 figures: Option<Figures>, outcome: Outcome)
  {
    var (waited, result) := Waited(before.st, spec, op, now, naps);
    && outcome == result
    && match outcome
       case StillWaiting => st == waited && history == before.history
       case LetIn(at, reservation) =>
         && st == LimiterAfter(DidAll(waited, spec, during), spec, op, reservation, figures, at + latency)
         && history == before.history + Round(reservation, op, figures, at + latency)
  }

  lemma {:induction false} FollowsInParts(before: Held, after: Held, spec: SpecTable, key: Option<CacheKey>,
                                          stale: Option<Entry>, op: string, now: nat, naps: seq<Nap>, latency: nat,
                                          during: seq<Deed>, touched: seq<CacheOp>, answer: Option<Response>,
                                          figures: Option<Figures>, outcome: Outcome, reply: Option<Response>)
    requires LimiterFollows(before, after.st, after.history, spec, op, now, naps, latency, during, figures, outcome)
    requires CacheFollows(before.store, after.store, key, stale, touched, now, outcome, answer, latency, reply)
    ensures Follows(before, after, spec, key, stale, op, now, naps, latency, during, touched, answer, figures,
                    if outcome.StillWaiting? then Asleep else Sent(outcome.at, outcome.reservation, answer, reply))
  {
  }

  class Client {
    const cache: MemoryCache
    const limiter: RateLimiter

    constructor (cache: MemoryCache, limiter: RateLimiter)
      ensures this.cache == cache && this.limiter == limiter
    {
      this.cache, this.limiter := cache, limiter;
    }

    ghost function Holds(): Held
      reads cache, limiter, limiter.buckets.Values
    {
      Held(cache.entries, limiter.View(), limiter.history)
    }

    /** Sends one request: `server` is what it would answer to a given
        `If-None-Match`, `latency` how long it takes, `naps` how long it can wait;
        others use the limiter in each nap, and, as `during` says, until the
        answer is there, and the cache, as `touched` says, all the while. */
    method Exec(key: Option<CacheKey>, op: string, callerTag: Option<string>, now: nat, naps: seq<Nap>, latency: nat,
                during: seq<Deed>, touched: seq<CacheOp>, server: Option<string> -> Option<Response>)
      returns (fate: Fate)
      requires limiter.Valid()
      requires forall tag :: server(tag).Some? ==> Proper(server(tag).value.headers)
      modifies cache, limiter, limiter.buckets.Values
      ensures limiter.Valid()
      ensures var decision := Begin(old(cache.entries), key, callerTag, now);
              if decision.Serve? then fate == Served(decision.hit) && Holds() == old(Holds())
              else Follows(old(Holds()), Holds(), limiter.spec, key, decision.stale, op, now, naps, latency, during,
                           touched, server(decision.tag), FiguresOf(server(decision.tag)), fate)
    {
      ghost var before := Holds();
      var decision := Consult(key, callerTag, now);
      if decision.Serve? {
        return Served(decision.hit);
      }
      assert Holds() == before;
      var answer := server(decision.tag);
      fate := Perform(key, decision.stale, op, now, naps, latency, during, touched, answer, FiguresOf(answer));
    }

    /** Looks the key up; a stale entry lends the request its tag, unless the
        caller brought one. */
    method Consult(key: Option<CacheKey>, callerTag: Option<string>, now: nat) returns (decision: Decision)
      ensures decision == Begin(cache.entries, key, callerTag, now)
      ensures decision.Serve? ==>
                key.Some? && key.value in cache.entries && IsHitOf(decision.hit, cache.entries[key.value])
    {
      if key.None? {
        return Decision.Send(callerTag, None);
      }
      var stale := cache.Lookup(key.value);
      if stale.None? {
        return Decision.Send(callerTag, None);
      }
      if IsFresh(stale.value, now) {
        HitIsAsStored(stale.value);
        return Serve(ToHit(stale.value));
      }
      decision := Decision.Send(if callerTag.Some? then callerTag else stale.value.etag, stale);
    }

    /** A request the cache did not answer. */
    method Perform(key: Option<CacheKey>, stale: Option<Entry>, op: string, now: nat, naps: seq<Nap>, latency: nat,
                   during: seq<Deed>, touched: seq<CacheOp>, answer: Option<Response>, figures: Option<Figures>)
      returns (fate: Fate)
      requires limiter.Valid()
      requires answer.Some? ==> Proper(answer.value.headers)
      modifies cache, limiter, limiter.buckets.Values
      ensures limiter.Valid()
      ensures Follows(old(Holds()), Holds(), limiter.spec, key, stale, op, now, naps, latency, during, touched,
                      answer, figures, fate)
    {
      ghost var before := Holds();
      var outcome := Send(op, now, naps, latency, during, figures);
      ghost var sent, told := limiter.View(), limiter.history;
      assert cache.entries == before.store;
      var reply := Conclude(key, stale, touched, now, outcome, answer, latency);
      fate := if outcome.StillWaiting? then Asleep else Sent(outcome.at, outcome.reservation, answer, reply);
      assert limiter.View() == sent && limiter.history == told;
      FollowsInParts(before, Holds(), limiter.spec, key, stale, op, now, naps, latency, during, touched, answer,
                     figures, outcome, reply);
    }

    /** What is left to do in the cache, which others have used since `now`. */
    method Conclude(key: Option<CacheKey>, stale: Option<Entry>, touched: seq<CacheOp>, now: nat, outcome: Outcome,
                    answer: Option<Response>, latency: nat) returns (reply: Option<Response>)
      requires answer.Some? ==> Proper(answer.value.headers)
      modifies cache
      ensures CacheFollows(old(cache.entries), cache.entries, key, stale, touched, now, outcome, answer, latency, reply)
    {
      cache.PerformAll(touched, now);
      reply := None;
      if outcome.LetIn? {
        reply := Handle(key, stale, answer, outcome.at + latency);
      }
    }

    /** The part that touches the network, under a reservation; `figures` is what
        the answer will say about the limit, if an answer comes. */
    method Send(op: string, now: nat, naps: seq<Nap>, latency: nat, during: seq<Deed>, figures: Option<Figures>)
      returns (outcome: Outcome)
      requires limiter.Valid()
      modifies limiter, limiter.buckets.Values
      ensures limiter.Valid()
      ensures LimiterFollows(old(Holds()), limiter.View(), limiter.history, limiter.spec, op, now, naps, latency,
                             during, figures, outcome)
    {
      outcome := limiter.Acquire(op, now, naps);
      if outcome.LetIn? {
        Close(op, outcome.reservation, during, figures, outcome.at + latency);
      } else {
        assert limiter.history == old(limiter.history) + [];
      }
    }

    /** While others use the limiter the answer comes, or does not; it is recorded,
        and only then is the reservation given back. */
    method Close(op: string, reservation: Reservation, during: seq<Deed>, answer: Option<Figures>, now: nat)
      requires limiter.Valid()
      modifies limiter, limiter.buckets.Values
      ensures limiter.Valid() && fresh(limiter.buckets.Values - old(limiter.buckets.Values))
      ensures limiter.View() == LimiterAfter(DidAll(old(limiter.View()), limiter.spec, during), limiter.spec, op,
                                             reservation, answer, now)
      ensures limiter.history == old(limiter.history)
                + (if answer.Some? then [Noted(op, answer.value, now)] else []) + [Returned(reservation)]
    {
      limiter.PerformAll(during);
      if answer.Some? {
        limiter.Record(op, answer.value, now);
      }
      ghost var recorded := limiter.View();
      limiter.Release(reservation);
      assert limiter.View() == GiveBack(recorded, reservation);
    }

    /** What follows an answer: the entry confirmed, replaced, dropped or left alone. */
    method Handle(key: Option<CacheKey>, stale: Option<Entry>, answer: Option<Response>, now: nat)
      returns (reply: Option<Response>)
      requires answer.Some? ==> Proper(answer.value.headers)
      modifies cache
      ensures reply == ReplyTo(key, stale, answer, now)
      ensures cache.entries == StoreAfter(old(cache.entries), key, stale, answer, now)
      ensures if key.Some? && stale.Some? && answer.Some? && answer.value.status == 304
              then reply.Some? && Confirms(reply.value, stale.value, answer.value)
              else reply == answer
    {
      if key.Some? && stale.Some? && answer.Some? && answer.value.status == 304 {
        RevalidatedIsBoth(key.value, stale.value, answer.value, now);
      }
      if key.None? || answer.None? {
        return answer;
      }
      var r := answer.value;
      if r.status == 304 {
        if stale.Some? {
          var entry := new CachedResponse(stale.value);
          var headers := entry.Revalidate(r, now);
          cache.Insert(key.value, entry.Parts(), now);
          return Some(ToResponse(entry.Parts(), headers, "revalidated"));
        }
      } else if IsSuccess(r.status) {
        if !IsCacheable(r, now) {
          if stale.Some? {
            cache.Remove(key.value);
          }
          return answer;
        }
        var entry := FromParts(r, now);
        if entry.Some? {
          cache.Insert(key.value, entry.value, now);
        }
      }
      reply := answer;
    }
  }
}
