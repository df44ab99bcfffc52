/** Runs of one group in which the server counts more as spent than it allows. */
module Overdraws {
  import opened Prelude
  import opened BucketModel
  import opened Ledger
  import opened GroupRuns

  /** Nothing reserved or held, and nothing left to settle. */
  ghost predicate AtRest(cfg: Config, s: System) {
    && Kept(cfg, s) && IsSettled(s.bucket, s.now)
    && s.bucket.blockedUntil.None? && s.bucket.inFlight == 0
  }

  /** No response brings a figure. */
  ghost predicate NoFigures(steps: seq<Step>) {
    forall step <- steps :: (step.Charge? || step.Respond?) ==> !step.reports
  }

  /** A request that is sent, answered and over. */
  function Exchange(s: System, tokens: nat, reports: bool): seq<Step> {
    [Acquire, Respond(|s.ledger|, tokens, reports, None), Drop(|s.ledger|)]
  }

  function Noting(spends: seq<Spend>, at: nat, tokens: nat): seq<Spend> {
    if tokens > 0 then spends + [Spend(at, tokens)] else spends
  }

  lemma {:induction false} SettledAlready(b: BucketState, now: nat)
    requires IsSettled(b, now)
    ensures Settled(b, now) == b
  {
  }

  lemma {:induction false} Sending(cfg: Config, s: System) returns (n: System)
    requires AtRest(cfg, s) && Available(s.bucket) >= ReservationCost(s.bucket)
    ensures Next(cfg, s, Acquire) == Some(n) && Kept(cfg, n) && n.now == s.now
    ensures n.bucket == s.bucket.(inFlight := ReservationCost(s.bucket)) && IsSettled(n.bucket, n.now)
    ensures n.ledger == s.ledger + [Reserved(ReservationCost(s.bucket))]
    ensures Spent(cfg, n, s.now) == Spent(cfg, s, s.now)
  {
    SettledAlready(s.bucket, s.now);
    n := Next(cfg, s, Acquire).value;
    NextKeeps(cfg, s, Acquire);
    SumAppend(InWindow(cfg.span, s.now), s.ledger, Reserved(ReservationCost(s.bucket)));
  }

  lemma {:induction false} Answering(cfg: Config, s: System, before: seq<Request>, cost: nat, tokens: nat,
                                     reports: bool)
    returns (n: System)
    requires Kept(cfg, s) && IsSettled(s.bucket, s.now) && s.ledger == before + [Reserved(cost)]
    requires tokens <= MAX_REQUEST_COST && (reports ==> !cfg.delivery.DelayedWithoutFigure?)
    ensures Next(cfg, s, Respond(|before|, tokens, reports, None)) == Some(n) && Kept(cfg, n) && n.now == s.now
    ensures n.ledger == before + [Answered(cost, s.now, tokens, s.now)]
    ensures n.bucket == s.bucket.(spends := Noting(s.bucket.spends, s.now, tokens), observed := n.bucket.observed)
    ensures n.bucket.observed == if reports then
              Some(Observation(Min(Monus(cfg.limit, Spent(cfg, s, s.now) + tokens), cfg.maxTokens), s.now)) else None
  {
    ReportedFigure(cfg, s, |before|, tokens);
    SettledAlready(s.bucket, s.now);
    n := Next(cfg, s, Respond(|before|, tokens, reports, None)).value;
    NextKeeps(cfg, s, Respond(|before|, tokens, reports, None));
  }

  lemma {:induction false} Ending(cfg: Config, s: System, before: seq<Request>, cost: nat, at: nat, tokens: nat)
    returns (n: System)
    requires Kept(cfg, s) && s.ledger == before + [Answered(cost, at, tokens, at)] && s.bucket.inFlight == cost
    ensures Next(cfg, s, Drop(|before|)) == Some(n) && Kept(cfg, n) && n.now == s.now
    ensures n.bucket == s.bucket.(inFlight := 0) && n.ledger == before + [Closed(at, tokens, at)]
  {
    n := Next(cfg, s, Drop(|before|)).value;
    NextKeeps(cfg, s, Drop(|before|));
  }

  lemma {:induction false} NotedIsSettled(cfg: Config, s: System, n: System, tokens: nat)
    requires AtRest(cfg, s) && Kept(cfg, n) && n.now == s.now
    requires n.bucket.blockedUntil.None? && n.bucket.inFlight == 0
    requires n.bucket.spends == Noting(s.bucket.spends, s.now, tokens)
    requires n.bucket.observed.Some? ==> n.bucket.observed.value.at == s.now
    ensures AtRest(cfg, n)
  {
  }

  lemma {:induction false} ChargedOnce(cfg: Config, s: System, n: System, tokens: nat, w: nat, t: nat)
    requires n.ledger == s.ledger + [Closed(s.now, tokens, s.now)] && s.now + w > t && cfg.span > 0
    ensures Sum(InWindow(w, t), n.ledger) == Sum(InWindow(w, t), s.ledger) + tokens
    ensures Spent(cfg, n, s.now) == Spent(cfg, s, s.now) + tokens
  {
    SumAppend(InWindow(w, t), s.ledger, Closed(s.now, tokens, s.now));
    SumAppend(InWindow(cfg.span, s.now), s.ledger, Closed(s.now, tokens, s.now));
  }

  /** One exchange, as the server counts at `t`, an instant within `w` of now. */
  lemma {:induction false} Round(cfg: Config, s: System, tokens: nat, reports: bool, w: nat, t: nat) returns (n: System)
    requires AtRest(cfg, s) && Available(s.bucket) >= ReservationCost(s.bucket)
    requires tokens <= MAX_REQUEST_COST && s.now + w > t && (reports ==> !cfg.delivery.DelayedWithoutFigure?)
    ensures Run(cfg, s, Exchange(s, tokens, reports)) == Some(n)
    ensures AtRest(cfg, n) && n.now == s.now && n.bucket.spends == Noting(s.bucket.spends, s.now, tokens)
    ensures Spent(cfg, n, s.now) == Spent(cfg, s, s.now) + tokens
    ensures n.bucket.observed == if reports then
              Some(Observation(Min(Monus(cfg.limit, Spent(cfg, n, s.now)), cfg.maxTokens), s.now)) else None
    ensures Sum(InWindow(w, t), n.ledger) == Sum(InWindow(w, t), s.ledger) + tokens
  {
    var i, cost := |s.ledger|, ReservationCost(s.bucket);
    var respond, drop := Respond(i, tokens, reports, None), Drop(i);
    var s1 := Sending(cfg, s);
    var s2 := Answering(cfg, s1, s.ledger, cost, tokens, reports);
    n := Ending(cfg, s2, s.ledger, cost, s.now, tokens);
    ChargedOnce(cfg, s, n, tokens, w, t);
    NotedIsSettled(cfg, s, n, tokens);
    ThreeSteps(cfg, s, Acquire, respond, drop, s1, s2, n);
  }

  lemma {:induction false} ThreeSteps(cfg: Config, s: System, a: Step, b: Step, c: Step, s1: System, s2: System,
                                      s3: System)
    requires Next(cfg, s, a) == Some(s1) && Next(cfg, s1, b) == Some(s2) && Next(cfg, s2, c) == Some(s3)
    ensures Run(cfg, s, [a, b, c]) == Some(s3)
  {
    assert Run(cfg, s2, [c]) == Some(s3);
    assert Run(cfg, s1, [b, c]) == Some(s3);
  }

  // ----- without figures -----

  /** A bucket of no tokens holds nothing back. */
  lemma {:induction false} SpendFreely(cfg: Config, s: System, k: nat) returns (steps: seq<Step>)
    requires AtRest(cfg, s) && cfg.maxTokens == 0
    ensures NoFigures(steps) && Run(cfg, s, steps).Some? && Run(cfg, s, steps).value.now == s.now
    ensures Spent(cfg, Run(cfg, s, steps).value, s.now) == Spent(cfg, s, s.now) + MAX_REQUEST_COST * k
    decreases k
  {
    steps := [];
    if k > 0 {
      var next := Round(cfg, s, MAX_REQUEST_COST, false, cfg.span, s.now);
      var rest := SpendFreely(cfg, next, k - 1);
      steps := Exchange(s, MAX_REQUEST_COST, false) + rest;
      RunAppend(cfg, s, Exchange(s, MAX_REQUEST_COST, false), rest);
    }
  }

  /** One token at a time, as long as a worst case is covered. */
  lemma {:induction false} SpendDown(cfg: Config, s: System, k: nat, w: nat, t: nat)
    returns (steps: seq<Step>, n: System)
    requires AtRest(cfg, s) && s.bucket.observed.None? && s.now + w > t
    requires cfg.maxTokens >= MAX_REQUEST_COST && Available(s.bucket) >= MAX_REQUEST_COST + k
    ensures NoFigures(steps) && Run(cfg, s, steps) == Some(n)
    ensures AtRest(cfg, n) && n.bucket.observed.None? && n.now == s.now
    ensures Total(n.bucket.spends) == Total(s.bucket.spends) + k
    ensures Sum(InWindow(w, t), n.ledger) == Sum(InWindow(w, t), s.ledger) + k
    decreases k
  {
    if k == 0 {
      steps, n := [], s;
    } else {
      var next := Round(cfg, s, 1, false, w, t);
      TotalAppend(s.bucket.spends, Spend(s.now, 1), cfg.window, s.now);
      var rest;
      rest, n := SpendDown(cfg, next, k - 1, w, t);
      steps := Exchange(s, 1, false) + rest;
      RunAppend(cfg, s, Exchange(s, 1, false), rest);
    }
  }

  /** The most a client lets through in one instant. */
  function Burst(cfg: Config): nat {
    Max(cfg.maxTokens, MAX_REQUEST_COST)
  }

  /** A full bucket spent in one instant, its last worst case in full. */
  lemma {:induction false} SpendAll(cfg: Config, s: System, w: nat, t: nat) returns (steps: seq<Step>, n: System)
    requires AtRest(cfg, s) && s.bucket.observed.None? && s.bucket.spends == [] && s.now + w > t
    ensures NoFigures(steps) && Run(cfg, s, steps) == Some(n)
    ensures AtRest(cfg, n) && n.now == s.now
    ensures Sum(InWindow(w, t), n.ledger) == Sum(InWindow(w, t), s.ledger) + Burst(cfg)
  {
    var first, half := [], s;
    if cfg.maxTokens >= MAX_REQUEST_COST {
      first, half := SpendDown(cfg, s, cfg.maxTokens - MAX_REQUEST_COST, w, t);
    }
    n := Round(cfg, half, MAX_REQUEST_COST, false, w, t);
    steps := first + Exchange(half, MAX_REQUEST_COST, false);
    RunAppend(cfg, s, first, Exchange(half, MAX_REQUEST_COST, false));
  }

  lemma {:induction false} ReleasesAll(b: BucketState, now: nat, t: nat)
    requires NoneAfter(b.spends, now) && t >= now + b.window
    ensures Release(b, t).spends == []
    decreases |b.spends|
  {
    if b.spends != [] {
      assert b.spends[0] in b.spends;
      var next := b.(observed := Credit(b.observed, b.spends[0], b.maxTokens), spends := b.spends[1..]);
      ReleasesAll(next, now, t);
    }
  }

  /** One window later the bucket has forgotten everything. */
  lemma {:induction false} RestAfterWindow(cfg: Config, s: System) returns (n: System)
    requires AtRest(cfg, s)
    ensures Run(cfg, s, [Tick(cfg.window), Poll]) == Some(n)
    ensures AtRest(cfg, n) && n.now == s.now + cfg.window && n.ledger == s.ledger
    ensures n.bucket.observed.None? && n.bucket.spends == []
  {
    var s1 := Next(cfg, s, Tick(cfg.window)).value;
    n := Next(cfg, s1, Poll).value;
    NextKeeps(cfg, s, Tick(cfg.window));
    NextKeeps(cfg, s1, Poll);
    SettledIsSettled(s.bucket, s.now, n.now);
    SettledInClosedForm(s.bucket, s.now, n.now);
    ReleasesAll(DropStale(LiftHold(s.bucket, n.now), n.now), s.now, n.now);
    assert Run(cfg, s1, [Poll]) == Some(n);
  }

  /** A full bucket spent, and again each time its window is over. */
  lemma {:induction false} SpendAgain(cfg: Config, s: System, k: nat, t: nat) returns (steps: seq<Step>, n: System)
    requires AtRest(cfg, s) && s.bucket.observed.None? && s.bucket.spends == [] && s.now + cfg.span > t
    ensures NoFigures(steps) && Run(cfg, s, steps) == Some(n) && n.now == s.now + k * cfg.window
    ensures Sum(InWindow(cfg.span, t), n.ledger) == Sum(InWindow(cfg.span, t), s.ledger) + (k + 1) * Burst(cfg)
    decreases k
  {
    steps, n := SpendAll(cfg, s, cfg.span, t);
    if k > 0 {
      var rested := RestAfterWindow(cfg, n);
      var rest;
      var pause := [Tick(cfg.window), Poll];
      RunAppend(cfg, s, steps, pause);
      rest, n := SpendAgain(cfg, rested, k - 1, t);
      RunAppend(cfg, s, steps + pause, rest);
      steps := steps + pause + rest;
      OneMore(k, cfg.window);
      OneMore(k, Burst(cfg));
    }
  }

  lemma {:induction false} OneMore(k: nat, n: nat)
    requires k > 0
    ensures k * n == (k - 1) * n + n && (k + 1) * n == k * n + n
  {
  }

  /** How many of the bucket's windows can begin within one of the server's. */
  function Windows(cfg: Config): nat
    requires cfg.window > 0
  {
    (cfg.span + cfg.window - 1) / cfg.window
  }

  /** As many full buckets as begin within the server's window. */
  lemma {:induction false} OverdrawByBursts(cfg: Config) returns (steps: seq<Step>)
    requires cfg.window > 0 && cfg.span > 0 && Windows(cfg) * Burst(cfg) > cfg.limit
    ensures NoFigures(steps) && Run(cfg, Start(cfg), steps).Some?
    ensures Spent(cfg, Run(cfg, Start(cfg), steps).value, Run(cfg, Start(cfg), steps).value.now) > cfg.limit
  {
    var k := Windows(cfg) - 1;
    LastWindow(cfg.span, cfg.window, k);
    var n;
    steps, n := SpendAgain(cfg, Start(cfg), k, k * cfg.window);
  }

  lemma {:induction false} LastWindow(span: nat, window: nat, k: nat)
    requires window > 0 && span > 0 && k + 1 == (span + window - 1) / window
    ensures k * window < span
  {
    assert (k + 1) * window <= span + window - 1;
    assert (k + 1) * window == k * window + window;
  }

  // ----- with figures -----

  /** `k` tokens have been spent one at a time, each answered with the server's figure. */
  ghost predicate Told(cfg: Config, s: System, n: System, k: nat, w: nat, t: nat) {
    && AtRest(cfg, n) && n.now == s.now
    && Spent(cfg, n, s.now) == Spent(cfg, s, s.now) + k
    && Sum(InWindow(w, t), n.ledger) == Sum(InWindow(w, t), s.ledger) + k
    && n.bucket.observed == Some(Observation(Min(Monus(cfg.limit, Spent(cfg, n, s.now)), cfg.maxTokens), s.now))
    && s.bucket.spends <= n.bucket.spends
    && (forall x <- n.bucket.spends[|s.bucket.spends|..] :: x.at == s.now)
  }

  lemma {:induction false} TellOnce(cfg: Config, s: System, w: nat, t: nat) returns (n: System)
    requires AtRest(cfg, s) && !cfg.delivery.DelayedWithoutFigure? && s.now + w > t
    requires Available(s.bucket) >= ReservationCost(s.bucket)
    ensures Run(cfg, s, Exchange(s, 1, true)) == Some(n) && Told(cfg, s, n, 1, w, t)
    ensures n.bucket.spends == s.bucket.spends + [Spend(s.now, 1)]
  {
    n := Round(cfg, s, 1, true, w, t);
  }

  lemma {:induction false} ToldMore(cfg: Config, s: System, next: System, n: System, k: nat, w: nat, t: nat)
    requires Told(cfg, s, next, 1, w, t) && next.bucket.spends == s.bucket.spends + [Spend(s.now, 1)]
    requires Told(cfg, next, n, k, w, t)
    ensures Told(cfg, s, n, k + 1, w, t)
  {
    OneBeforeTheRest(s.bucket.spends, n.bucket.spends, s.now);
  }

  lemma {:induction false} TellDown(cfg: Config, s: System, k: nat, w: nat, t: nat)
    returns (steps: seq<Step>, n: System)
    requires AtRest(cfg, s) && !cfg.delivery.DelayedWithoutFigure? && s.now + w > t && k > 0
    requires Available(s.bucket) >= ReservationCost(s.bucket)
    requires Spent(cfg, s, s.now) + k - 1 + ReservationCost(s.bucket) <= cfg.limit
    ensures Run(cfg, s, steps) == Some(n) && Told(cfg, s, n, k, w, t)
    decreases k
  {
    var next := TellOnce(cfg, s, w, t);
    steps, n := Exchange(s, 1, true), next;
    if k > 1 {
      var rest;
      rest, n := TellDown(cfg, next, k - 1, w, t);
      RunAppend(cfg, s, steps, rest);
      steps := steps + rest;
      ToldMore(cfg, s, next, n, k - 1, w, t);
    }
  }

  lemma {:induction false} OneBeforeTheRest(before: seq<Spend>, after: seq<Spend>, at: nat)
    requires before + [Spend(at, 1)] <= after
    requires forall x <- after[|before| + 1..] :: x.at == at
    ensures before <= after && forall x <- after[|before|..] :: x.at == at
  {
    assert after[|before|] == (before + [Spend(at, 1)])[|before|];
    assert after[|before|..] == [after[|before|]] + after[|before| + 1..];
    assert before == (before + [Spend(at, 1)])[..|before|] == after[..|before| + 1][..|before|];
  }

  /** A bucket too small for a worst case learns that its few tokens are left, and
      sends a request that costs more. */
  lemma {:induction false} OverdrawSmallBucket(cfg: Config) returns (steps: seq<Step>)
    requires cfg.window > 0 && cfg.span > 0 && !cfg.delivery.DelayedWithoutFigure?
    requires 0 < cfg.maxTokens < MAX_REQUEST_COST <= cfg.limit
    ensures Run(cfg, Start(cfg), steps).Some?
    ensures Spent(cfg, Run(cfg, Start(cfg), steps).value, Run(cfg, Start(cfg), steps).value.now) > cfg.limit
  {
    var first, s := TellDown(cfg, Start(cfg), cfg.limit - cfg.maxTokens, cfg.span, 0);
    var n := Round(cfg, s, MAX_REQUEST_COST, false, cfg.span, 0);
    steps := first + Exchange(s, MAX_REQUEST_COST, false);
    RunAppend(cfg, Start(cfg), first, Exchange(s, MAX_REQUEST_COST, false));
  }

  /** The server's window is longer: the bucket has forgotten what the server still counts. */
  lemma {:induction false} OverdrawLongerSpan(cfg: Config) returns (steps: seq<Step>)
    requires 0 < cfg.window < cfg.span && !cfg.delivery.DelayedWithoutFigure?
    requires MAX_REQUEST_COST <= cfg.maxTokens <= cfg.limit
    ensures Run(cfg, Start(cfg), steps).Some?
    ensures Spent(cfg, Run(cfg, Start(cfg), steps).value, Run(cfg, Start(cfg), steps).value.now) > cfg.limit
  {
    var first, s1 := TellDown(cfg, Start(cfg), cfg.limit - MAX_REQUEST_COST + 1, cfg.span, cfg.window);
    var s2 := RestAfterWindow(cfg, s1);
    var n := Round(cfg, s2, MAX_REQUEST_COST, false, cfg.span, cfg.window);
    var rest := [Tick(cfg.window), Poll] + Exchange(s2, MAX_REQUEST_COST, false);
    RunAppend(cfg, s1, [Tick(cfg.window), Poll], Exchange(s2, MAX_REQUEST_COST, false));
    RunAppend(cfg, Start(cfg), first, rest);
    steps := first + rest;
  }

  /** The server has forgotten the one token that the bucket has yet to release. */
  ghost predicate Forgotten(cfg: Config, s: System) {
    && AtRest(cfg, s) && Available(s.bucket) >= MAX_REQUEST_COST
    && Spent(cfg, s, s.now) == 0
    && (exists x: nat :: s.bucket.spends == [Spend(x, 1)] && x + cfg.window == s.now + 1)
  }

  lemma {:induction false} NoneExpired(spends: seq<Spend>, window: nat, t: nat)
    requires forall x <- spends :: x.at + window > t
    ensures Expired(spends, window, t) == 0
  {
    if spends != [] {
      assert spends[0] in spends;
      NoneExpired(spends[1..], window, t);
    }
  }

  /** Releasing it, the bucket adds it to a figure that never took it off. */
  lemma {:induction false} CreditedAgain(b: BucketState, now: nat, left: nat)
    requires IsSettled(b, now) && b.blockedUntil.None? && b.inFlight == 0 && b.window > 1
    requires b.observed == Some(Observation(left, now)) && left < b.maxTokens
    requires b.spends != [] && b.spends[0].tokens == 1 && b.spends[0].at + b.window == now + 1
    requires forall x <- b.spends[1..] :: x.at == now
    ensures Available(Settled(b, now + 1)) == left + 1 && Settled(b, now + 1).blockedUntil.None?
    ensures Settled(b, now + 1).inFlight == 0
  {
    SettledInClosedForm(b, now, now + 1);
    NoneExpired(b.spends[1..], b.window, now + 1);
  }

  /** The rest is spent to the last worst case but one token, which the credit makes up for. */
  lemma {:induction false} OverdrawForgotten(cfg: Config, s: System) returns (steps: seq<Step>)
    requires Forgotten(cfg, s) && !cfg.delivery.DelayedWithoutFigure? && cfg.window > 1 && cfg.span > 1
    requires MAX_REQUEST_COST <= cfg.maxTokens && MAX_REQUEST_COST < cfg.limit
    ensures Run(cfg, s, steps).Some?
    ensures Spent(cfg, Run(cfg, s, steps).value, Run(cfg, s, steps).value.now) > cfg.limit
  {
    var t := s.now + 1;
    SumFades(s.ledger, cfg.span, s.now, t);
    var first, s1 := TellDown(cfg, s, cfg.limit - MAX_REQUEST_COST + 1, cfg.span, t);
    assert s1.bucket.spends[0] == s.bucket.spends[0];
    var s2 := OneLater(cfg, s1);
    CreditedAgain(s1.bucket, s1.now, MAX_REQUEST_COST - 1);
    var n := Round(cfg, s2, MAX_REQUEST_COST, false, cfg.span, t);
    var rest := [Tick(1), Poll] + Exchange(s2, MAX_REQUEST_COST, false);
    RunAppend(cfg, s1, [Tick(1), Poll], Exchange(s2, MAX_REQUEST_COST, false));
    RunAppend(cfg, s, first, rest);
    steps := first + rest;
  }

  lemma {:induction false} OneLater(cfg: Config, s: System) returns (n: System)
    requires AtRest(cfg, s)
    ensures Run(cfg, s, [Tick(1), Poll]) == Some(n) && AtRest(cfg, n) && n.now == s.now + 1
    ensures n.bucket == Settled(s.bucket, s.now + 1) && n.ledger == s.ledger
  {
    var s1 := Next(cfg, s, Tick(1)).value;
    n := Next(cfg, s1, Poll).value;
    NextKeeps(cfg, s, Tick(1));
    NextKeeps(cfg, s1, Poll);
    SettledIsSettled(s.bucket, s.now, n.now);
    SettledInClosedForm(s.bucket, s.now, n.now);
    assert Run(cfg, s1, [Poll]) == Some(n);
  }

  lemma {:induction false} AllForgotten(ledger: seq<Request>, w: nat, last: nat, t: nat)
    requires forall r :: r in ledger && (r.Charged? || r.Answered? || r.Closed? || r.Unseen?) ==> r.at <= last
    requires last + w <= t
    ensures Sum(InWindow(w, t), ledger) == 0
  {
    if ledger != [] {
      assert ledger[0] in ledger;
      AllForgotten(ledger[1..], w, last, t);
    }
  }

  /** The server's window is shorter: it has forgotten what the bucket still holds,
      and its next figure has that back before the bucket releases it. */
  lemma {:induction false} OverdrawShorterSpan(cfg: Config) returns (steps: seq<Step>)
    requires 1 < cfg.span < cfg.window && !cfg.delivery.DelayedWithoutFigure?
    requires MAX_REQUEST_COST <= cfg.maxTokens && MAX_REQUEST_COST < cfg.limit
    ensures Run(cfg, Start(cfg), steps).Some?
    ensures Spent(cfg, Run(cfg, Start(cfg), steps).value, Run(cfg, Start(cfg), steps).value.now) > cfg.limit
  {
    var first := Exchange(Start(cfg), 1, true);
    var s := TellOnce(cfg, Start(cfg), cfg.span, 0);
    var n := Next(cfg, s, Tick(cfg.window - 1)).value;
    NextKeeps(cfg, s, Tick(cfg.window - 1));
    AllForgotten(s.ledger, cfg.span, s.now, n.now);
    assert n.bucket.spends == [Spend(0, 1)];
    assert Run(cfg, s, [Tick(cfg.window - 1)]) == Some(n);
    var rest := OverdrawForgotten(cfg, n);
    RunAppend(cfg, Start(cfg), first, [Tick(cfg.window - 1)]);
    RunAppend(cfg, Start(cfg), first + [Tick(cfg.window - 1)], rest);
    steps := first + [Tick(cfg.window - 1)] + rest;
  }

  /** A token charged at 0, whose answer is at hand at 1. */
  lemma {:induction false} LateAnswer(cfg: Config) returns (n: System)
    requires cfg.delivery.DelayedWithFigure? && 1 < cfg.span <= cfg.window
    requires MAX_REQUEST_COST <= cfg.maxTokens && MAX_REQUEST_COST < cfg.limit
    ensures Run(cfg, Start(cfg), [Acquire, Charge(0, 1, true), Tick(1)]) == Some(n)
    ensures Kept(cfg, n) && IsSettled(n.bucket, 1) && n.now == 1
    ensures n.bucket == Fresh(cfg.maxTokens, cfg.window).(inFlight := MAX_REQUEST_COST)
    ensures n.ledger == [Charged(MAX_REQUEST_COST, 0, 1, Some(cfg.limit - 1))]
  {
    var s1 := Sending(cfg, Start(cfg));
    ReportedFigure(cfg, s1, 0, 1);
    var s2 := Next(cfg, s1, Charge(0, 1, true)).value;
    NextKeeps(cfg, s1, Charge(0, 1, true));
    n := Next(cfg, s2, Tick(1)).value;
    NextKeeps(cfg, s2, Tick(1));
    ThreeSteps(cfg, Start(cfg), Acquire, Charge(0, 1, true), Tick(1), s1, s2, n);
  }

  lemma {:induction false} RecordedLate(cfg: Config, s: System, report: nat) returns (n: System)
    requires Kept(cfg, s) && IsSettled(s.bucket, 1) && s.now == 1
    requires s.bucket == Fresh(cfg.maxTokens, cfg.window).(inFlight := MAX_REQUEST_COST)
    requires s.ledger == [Charged(MAX_REQUEST_COST, 0, 1, Some(report))]
    ensures Next(cfg, s, Record(0, None)) == Some(n) && Kept(cfg, n) && n.now == 1
    ensures n.bucket == s.bucket.(spends := [Spend(1, 1)],
                                  observed := Some(Observation(Min(report, cfg.maxTokens), 1)))
    ensures n.ledger == [Answered(MAX_REQUEST_COST, 0, 1, 1)]
  {
    SettledAlready(s.bucket, 1);
    n := Next(cfg, s, Record(0, None)).value;
    NextKeeps(cfg, s, Record(0, None));
  }

  /** A token recorded at 1, the server forgets it before the bucket does. */
  lemma {:induction false} WaitsForRelease(cfg: Config, s: System) returns (n: System)
    requires Kept(cfg, s) && s.now == 1 && s.ledger == [Closed(0, 1, 1)] && 1 < cfg.span <= cfg.window
    requires MAX_REQUEST_COST <= cfg.maxTokens && MAX_REQUEST_COST < cfg.limit
    requires s.bucket == BucketState(cfg.maxTokens, cfg.window,
                                     Some(Observation(Min(cfg.limit - 1, cfg.maxTokens), 1)), [Spend(1, 1)], 0, None)
    ensures Next(cfg, s, Tick(cfg.window - 1)) == Some(n) && Forgotten(cfg, n)
  {
    n := Next(cfg, s, Tick(cfg.window - 1)).value;
    NextKeeps(cfg, s, Tick(cfg.window - 1));
    AllForgotten(n.ledger, cfg.span, 0, n.now);
  }

  lemma {:induction false} DelayedAnswer(cfg: Config) returns (steps: seq<Step>, n: System)
    requires cfg.delivery.DelayedWithFigure? && 1 < cfg.span <= cfg.window
    requires MAX_REQUEST_COST <= cfg.maxTokens && MAX_REQUEST_COST < cfg.limit
    ensures Run(cfg, Start(cfg), steps) == Some(n) && Forgotten(cfg, n)
  {
    var first, rest := [Acquire, Charge(0, 1, true), Tick(1)], [Record(0, None), Drop(0), Tick(cfg.window - 1)];
    var s1 := LateAnswer(cfg);
    var s2 := RecordedLate(cfg, s1, cfg.limit - 1);
    var s3 := Next(cfg, s2, Drop(0)).value;
    NextKeeps(cfg, s2, Drop(0));
    assert s3.ledger == [Closed(0, 1, 1)];
    n := WaitsForRelease(cfg, s3);
    ThreeSteps(cfg, s1, Record(0, None), Drop(0), Tick(cfg.window - 1), s2, s3, n);
    RunAppend(cfg, Start(cfg), first, rest);
    steps := first + rest;
  }

  /** An answer on its way for one instant is released one instant too late, as
      if the server's window were that much shorter. */
  lemma {:induction false} OverdrawWithDelay(cfg: Config) returns (steps: seq<Step>)
    requires cfg.delivery.DelayedWithFigure? && 1 < cfg.span <= cfg.window
    requires MAX_REQUEST_COST <= cfg.maxTokens && MAX_REQUEST_COST < cfg.limit
    ensures Run(cfg, Start(cfg), steps).Some?
    ensures Spent(cfg, Run(cfg, Start(cfg), steps).value, Run(cfg, Start(cfg), steps).value.now) > cfg.limit
  {
    var first, n := DelayedAnswer(cfg);
    var rest := OverdrawForgotten(cfg, n);
    RunAppend(cfg, Start(cfg), first, rest);
    steps := first + rest;
  }

  // ----- what the bucket is not told -----

  /** Another user can spend what a reservation was counting on. */
  lemma {:induction false} OverdrawShared(cfg: Config) returns (steps: seq<Step>)
    requires cfg.shared && cfg.window > 0 && cfg.span > 0
    ensures Run(cfg, Start(cfg), steps).Some?
    ensures Spent(cfg, Run(cfg, Start(cfg), steps).value, Run(cfg, Start(cfg), steps).value.now) > cfg.limit
  {
    var foreign, answer := ForeignCharge(cfg.limit), Respond(0, MAX_REQUEST_COST, false, None);
    var s1 := Sending(cfg, Start(cfg));
    var cost, charge := ReservationCost(s1.bucket), Unseen(0, cfg.limit);
    var s2 := Next(cfg, s1, foreign).value;
    assert s2.ledger == [Reserved(cost), charge];
    var s3 := Next(cfg, s2, answer).value;
    assert s3.ledger == [Answered(cost, 0, MAX_REQUEST_COST, 0), charge];
    SumOfTwo(InWindow(cfg.span, 0), Answered(cost, 0, MAX_REQUEST_COST, 0), charge);
    ThreeSteps(cfg, Start(cfg), Acquire, foreign, answer, s1, s2, s3);
    steps := [Acquire, foreign, answer];
  }

  /** Requests that are charged but never recorded leave the bucket as it was,
      so one after another they spend without end. */
  lemma {:induction false} OverdrawByLoss(cfg: Config, s: System, n: nat) returns (steps: seq<Step>)
    requires cfg.lossy && cfg.span > 0 && s.now == 0 && s.bucket == Fresh(cfg.maxTokens, cfg.window)
    ensures Run(cfg, s, steps).Some?
    ensures Run(cfg, s, steps).value.now == 0
    ensures Spent(cfg, Run(cfg, s, steps).value, 0) == Spent(cfg, s, 0) + MAX_REQUEST_COST * n
    decreases n
  {
    steps := [];
    if n > 0 {
      var i := |s.ledger|;
      var lose := Lose(i, MAX_REQUEST_COST);
      assert Settled(s.bucket, 0) == s.bucket;
      var s1 := Next(cfg, s, Acquire).value;
      var s2 := Next(cfg, s1, lose).value;
      SumAppend(InWindow(cfg.span, 0), s.ledger, s1.ledger[i]);
      SumUpdate(InWindow(cfg.span, 0), s1.ledger, i, s2.ledger[i]);
      var rest := OverdrawByLoss(cfg, s2, n - 1);
      steps := [Acquire, lose] + rest;
      assert steps[1..] == [lose] + rest;
      assert steps[1..][1..] == rest;
    }
  }

  /** Requests that leave without a reservation do so all at once, and are charged one by one. */
  lemma {:induction false} OverdrawUnmapped(cfg: Config, s: System, n: nat) returns (steps: seq<Step>)
    requires cfg.unmapped && cfg.span > 0
    ensures Run(cfg, s, steps).Some?
    ensures var t := Run(cfg, s, steps).value;
            && t.now == s.now && s.ledger <= t.ledger
            && Spent(cfg, t, s.now) == Spent(cfg, s, s.now) + MAX_REQUEST_COST * n
    decreases n
  {
    steps := [];
    if n > 0 {
      var i := |s.ledger|;
      var answer := Respond(i, MAX_REQUEST_COST, false, None);
      var s1 := Next(cfg, s, Slip).value;
      var rest := OverdrawUnmapped(cfg, s1, n - 1);
      var s2 := Run(cfg, s1, rest).value;
      var r := Answered(0, s.now, MAX_REQUEST_COST, s.now);
      ChargedInTheMiddle(s.ledger, s2.ledger, Reserved(0), r, cfg.span, s.now);
      var s3 := Next(cfg, s2, answer).value;
      assert s3.ledger == s2.ledger[i := r];
      RunAppend(cfg, s1, rest, [answer]);
      assert Run(cfg, s2, [answer]) == Some(s3);
      steps := [Slip] + (rest + [answer]);
      assert steps[1..] == rest + [answer];
    }
  }
}
