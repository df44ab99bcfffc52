/** One rate-limit group's bucket, updated in place. */
module Buckets {
  import opened Prelude
  import opened BucketModel

  datatype RateBudget = RateBudget(maxTokens: nat, window: nat, remainingEstimate: nat, blockedFor: Option<nat>)

  function BudgetOf(b: BucketState, now: nat): RateBudget {
    RateBudget(b.maxTokens, b.window, Available(b),
               if b.blockedUntil.Some? then Some(Monus(b.blockedUntil.value, now)) else None)
  }

  /** What is listed of a bucket is so: a request would be let in now exactly if nothing
      is said to be blocked and the estimate covers a worst case; and nothing is let in
      for as long as it is said to be blocked, and no longer for that reason. */
  lemma {:induction false} BudgetIsTrue(b: BucketState, entry: nat, now: nat)
    requires WellFormed(b, entry) && entry <= now
    ensures var budget := BudgetOf(Settled(b, now), now);
            && (budget.maxTokens, budget.window) == (b.maxTokens, b.window)
            && (Admits(b, now) <==> budget.blockedFor.None? && budget.remainingEstimate >= Min(5, b.maxTokens))
            && (budget.blockedFor.Some? <==> exists until :: b.blockedUntil == Some(until) && now < until)
            && (budget.blockedFor.Some? ==>
                  && (forall t :: now <= t < now + budget.blockedFor.value ==> !Admits(b, t))
                  && Settled(b, now + budget.blockedFor.value).blockedUntil.None?)
            && (budget.blockedFor.None? && !FigureLasts(b, now) ==>
                  budget.remainingEstimate == Monus(Monus(b.maxTokens, Live(b.spends, b.window, now)), b.inFlight))
  {
    SettledInClosedForm(b, entry, now);
    AdmitsExactly(b, entry, now);
    var budget := BudgetOf(Settled(b, now), now);
    if budget.blockedFor.Some? {
      SettledInClosedForm(b, entry, now + budget.blockedFor.value);
      forall t | now <= t < now + budget.blockedFor.value ensures !Admits(b, t) {
        HoldHolds(b, entry, t);
      }
    }
  }

  class Bucket {
    var maxTokens: nat
    var window: nat
    var observed: Option<Observation>
    var spends: seq<Spend>
    var inFlight: nat
    var blockedUntil: Option<nat>

    /** The group this bucket belongs to. */
    ghost const owner: string

    constructor (maxTokens: nat, window: nat, ghost owner: string)
      ensures View() == Fresh(maxTokens, window) && this.owner == owner
    {
      this.owner := owner;
      this.maxTokens := maxTokens;
      this.window := window;
      observed := None;
      spends := [];
      inFlight := 0;
      blockedUntil := None;
    }

    function View(): BucketState
      reads this
    {
      BucketState(maxTokens, window, observed, spends, inFlight, blockedUntil)
    }

    /** Brings the bucket up to `now`: hold, figure and spends, in that order. */
    method Settle(now: nat)
      modifies this`observed, this`spends, this`blockedUntil
      ensures View() == Settled(old(View()), now)
    {
      if blockedUntil.Some? && now >= blockedUntil.value {
        blockedUntil := None;
        observed := None;
      }
      if observed.Some? && now >= observed.value.at + window {
        observed := None;
      }
      while spends != []
        invariant maxTokens == old(maxTokens) && window == old(window) && inFlight == old(inFlight)
        invariant Release(View(), now) == Settled(old(View()), now)
        decreases |spends|
      {
        var front := spends[0];
        if front.at + window > now {
          break;
        }
        spends := spends[1..];
        if observed.Some? && front.at <= observed.value.at {
          observed := Some(observed.value.(remaining := Min(observed.value.remaining + front.tokens, maxTokens)));
        }
      }
    }

    method GetAvailable() returns (available: nat)
      ensures available == Available(View())
    {
      var base: nat;
      if observed.Some? {
        base := observed.value.remaining;
      } else {
        var sum := 0;
        for i := 0 to |spends|
          invariant sum + Total(spends[i..]) == Total(spends)
        {
          sum := sum + spends[i].tokens;
        }
        base := Monus(maxTokens, sum);
      }
      available := Monus(base, inFlight);
    }

    /** When to come back: `now` itself if a worst-case response is covered. */
    method GetReadyAt(now: nat) returns (ready: nat)
      ensures ready == ReadyAt(View(), now)
    {
      if blockedUntil.Some? {
        return blockedUntil.value;
      }
      var needed := ReservationCost(View());
      var available: nat := GetAvailable();
      if available >= needed {
        return now;
      }
      for i := 0 to |spends|
        invariant FirstSufficient(spends[i..], observed, available, needed)
               == FirstSufficient(spends, observed, Available(View()), needed)
      {
        if Deducted(observed, spends[i]) {
          available := available + spends[i].tokens;
          if available >= needed {
            return spends[i].at + window;
          }
        }
      }
      ready := if observed.Some? then observed.value.at + window else now + MAX_POLL;
    }

    /** The part of `acquire` under the lock: settle, then reserve if ready. */
    method ReserveIfReady(now: nat) returns (ready: nat, tokens: nat)
      modifies this`observed, this`spends, this`blockedUntil, this`inFlight
      ensures var b := Settled(old(View()), now);
              && ready == ReadyAt(b, now) && tokens == ReservationCost(b)
              && View() == if ready <= now then b.(inFlight := b.inFlight + tokens) else b
    {
      Settle(now);
      ready := GetReadyAt(now);
      tokens := ReservationCost(View());
      if ready <= now {
        inFlight := inFlight + tokens;
      }
    }

    method GiveBack(tokens: nat)
      modifies this`inFlight
      ensures View() == old(View()).(inFlight := Monus(old(inFlight), tokens))
    {
      inFlight := Monus(inFlight, tokens);
    }

    method ReportBudget(now: nat) returns (budget: RateBudget)
      modifies this`observed, this`spends, this`blockedUntil
      ensures View() == Settled(old(View()), now)
      ensures budget == BudgetOf(View(), now)
    {
      Settle(now);
      var estimate := GetAvailable();
      budget := RateBudget(maxTokens, window, estimate,
                           if blockedUntil.Some? then Some(Monus(blockedUntil.value, now)) else None);
    }

    /** Ingests one response's rate-limit figures. */
    method Record(limit: Option<(nat, nat)>, used: Option<nat>, remaining: Option<nat>, hold: Option<nat>, now: nat)
      modifies this
      ensures View() == Recorded(old(View()), limit, used, remaining, hold, now)
    {
      if limit.Some? {
        maxTokens := limit.value.0;
        window := limit.value.1;
      }
      Settle(now);
      if used.Some? && used.value > 0 {
        spends := spends + [Spend(now, used.value)];
      }
      observed := if remaining.Some? then Some(Observation(Min(remaining.value, maxTokens), now)) else None;
      if hold.Some? {
        var until := now + hold.value;
        blockedUntil := Some(if blockedUntil.Some? then Max(blockedUntil.value, until) else until);
      }
    }
  }
}
