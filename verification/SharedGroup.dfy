/** A group other users spend from too: when the client's estimate is still safe. */
module SharedGroup {
  import opened Prelude
  import opened BucketModel
  import opened Ledger
  import opened GroupRuns

  /** What the server counted as spent when the bucket's figure was taken. */
  function SpentThen(cfg: Config, s: System): nat
    requires s.bucket.observed.Some?
  {
    Spent(cfg, s, s.bucket.observed.value.at)
  }

  /** Recorded tokens released between the bucket's figure and `t`. */
  function OwnReleased(cfg: Config, s: System, t: nat): nat
    requires s.bucket.observed.Some?
  {
    Monus(Sum(Noted(cfg.window, s.bucket.observed.value.at), s.ledger), Sum(Noted(cfg.window, t), s.ledger))
  }

  /** Unrecorded tokens released between the bucket's figure and `t`. */
  function OthersReleased(cfg: Config, s: System, t: nat): nat
    requires s.bucket.observed.Some?
  {
    Monus(Sum(Others(cfg.window, s.bucket.observed.value.at), s.ledger), Sum(Others(cfg.window, t), s.ledger))
  }

  /** While `covered`, no charge is later than the figure the bucket holds, which
      is what the server had left, or zero if that was nothing or less; once the
      figure is gone no unseen charge is left in the window. */
  ghost predicate Covers(cfg: Config, s: System) {
    s.covered ==>
      if s.bucket.observed.Some? then
        var o := s.bucket.observed.value;
        var noted := Sum(Noted(cfg.window, o.at), s.ledger);
        && (forall r :: r in s.ledger && (r.Answered? || r.Closed? || r.Unseen?) ==> r.at <= o.at)
        && s.figure == Monus(cfg.limit, SpentThen(cfg, s))
        && Total(s.bucket.spends) <= noted
        && o.remaining == Min(s.figure + (noted - Total(s.bucket.spends)), cfg.maxTokens)
      else Sum(Others(cfg.window, s.now), s.ledger) == 0
  }

  lemma {:induction false} SettleCovers(cfg: Config, s: System)
    requires cfg.span == cfg.window && Kept(cfg, s) && Covers(cfg, s)
    ensures Covers(cfg, Settle(cfg, s))
  {
    SettledInClosedForm(s.bucket, s.now, s.now);
    LiveBounds(s.bucket.spends, cfg.window, s.now, s.now);
    if s.covered && s.bucket.observed.Some? && s.now >= s.bucket.observed.value.at + cfg.window {
      OthersExpired(s.ledger, cfg.window, s.bucket.observed.value.at, s.now);
    }
  }

  lemma {:induction false} RespondCovers(cfg: Config, s: System, i: nat, tokens: nat, reports: bool,
                                         hold: Option<nat>)
    requires cfg.delivery.Prompt? && cfg.span == cfg.window && Kept(cfg, s)
    requires Next(cfg, s, Respond(i, tokens, reports, hold)).Some?
    ensures Covers(cfg, Next(cfg, s, Respond(i, tokens, reports, hold)).value)
  {
    var c := ChargeAt(cfg, s, i, tokens, reports);
    var n := RecordAt(cfg, c, i, hold);
    RecordedShape(s.bucket, None, Some(tokens), c.ledger[i].report, hold, s.now);
    if reports {
      NewFigure(cfg, s, i, tokens, hold);
      NextKeeps(cfg, s, Respond(i, tokens, true, hold));
      NothingLater(cfg, n);
      NotedNow(cfg, n);
      RecordedSpends(s.bucket, None, Some(tokens), c.ledger[i].report, hold, s.now, s.now);
    } else {
      SumUpdate(Others(cfg.window, s.now), c.ledger, i, n.ledger[i]);
    }
  }

  /** A figure taken with the charge is what the server has left after it, or zero. */
  lemma {:induction false} NewFigure(cfg: Config, s: System, i: nat, tokens: nat, hold: Option<nat>)
    requires cfg.span > 0 && i < |s.ledger| && s.ledger[i].Reserved?
    ensures var n := RecordAt(cfg, ChargeAt(cfg, s, i, tokens, true), i, hold);
            && n.figure == Monus(cfg.limit, Spent(cfg, n, s.now))
            && Spent(cfg, n, s.now) == Spent(cfg, s, s.now) + tokens
  {
    var c := ChargeAt(cfg, s, i, tokens, true);
    ReportedFigure(cfg, s, i, tokens);
    SumUpdate(InWindow(cfg.span, s.now), c.ledger, i, RecordAt(cfg, c, i, hold).ledger[i]);
  }

  lemma {:induction false} NothingLater(cfg: Config, s: System)
    requires Kept(cfg, s)
    ensures forall r :: r in s.ledger && (r.Answered? || r.Closed? || r.Unseen?) ==> r.at <= s.now
  {
  }

  /** The spends a bucket holds right after settling are what is noted. */
  lemma {:induction false} NotedNow(cfg: Config, s: System)
    requires Kept(cfg, s)
    ensures Sum(Noted(cfg.window, s.now), s.ledger) == Live(s.bucket.spends, cfg.window, s.now)
  {
  }

  /** With prompt delivery no answer is ever outstanding once charged. */
  lemma {:induction false} NothingRecordedLate(cfg: Config, s: System, i: nat, hold: Option<nat>)
    requires cfg.delivery.Prompt? && Kept(cfg, s)
    ensures Next(cfg, s, Record(i, hold)).None?
  {
    if i < |s.ledger| {
      assert s.ledger[i] in s.ledger;
    }
  }

  predicate SameSums(w: nat, t: nat, a: seq<Request>, b: seq<Request>) {
    && Sum(InWindow(w, t), a) == Sum(InWindow(w, t), b)
    && Sum(Noted(w, t), a) == Sum(Noted(w, t), b)
    && Sum(Others(w, t), a) == Sum(Others(w, t), b)
  }

  /** A request that is not charged, or whose standing alone changes. */
  lemma {:induction false} SameChargesCover(cfg: Config, s: System, n: System)
    requires cfg.span == cfg.window && Covers(cfg, s)
    requires n == s.(ledger := n.ledger, bucket := s.bucket.(inFlight := n.bucket.inFlight))
    requires forall r :: r in n.ledger && (r.Answered? || r.Closed? || r.Unseen?) ==>
               exists q :: q in s.ledger && (q.Answered? || q.Closed? || q.Unseen?) && q.at == r.at
    requires SameSums(cfg.window, s.now, n.ledger, s.ledger)
    requires s.bucket.observed.Some? ==> SameSums(cfg.window, s.bucket.observed.value.at, n.ledger, s.ledger)
    ensures Covers(cfg, n)
  {
  }

  lemma {:induction false} SumsAppend(w: nat, t: nat, ledger: seq<Request>, r: Request)
    requires r.Reserved?
    ensures SameSums(w, t, ledger + [r], ledger)
  {
    SumAppend(InWindow(w, t), ledger, r);
    SumAppend(Noted(w, t), ledger, r);
    SumAppend(Others(w, t), ledger, r);
  }

  lemma {:induction false} ReserveCovers(cfg: Config, s: System, cost: nat, inFlight: nat)
    requires cfg.span == cfg.window && Covers(cfg, s)
    ensures Covers(cfg, s.(bucket := s.bucket.(inFlight := inFlight), ledger := s.ledger + [Reserved(cost)]))
  {
    SumsAppend(cfg.window, s.now, s.ledger, Reserved(cost));
    if s.bucket.observed.Some? {
      SumsAppend(cfg.window, s.bucket.observed.value.at, s.ledger, Reserved(cost));
    }
    SameChargesCover(cfg, s, s.(bucket := s.bucket.(inFlight := inFlight), ledger := s.ledger + [Reserved(cost)]));
  }

  lemma {:induction false} SumsDrop(cfg: Config, s: System, i: nat, t: nat)
    requires Next(cfg, s, Drop(i)).Some?
    ensures SameSums(cfg.window, t, Next(cfg, s, Drop(i)).value.ledger, s.ledger)
  {
    var r := Next(cfg, s, Drop(i)).value.ledger[i];
    SumUpdate(InWindow(cfg.window, t), s.ledger, i, r);
    SumUpdate(Noted(cfg.window, t), s.ledger, i, r);
    SumUpdate(Others(cfg.window, t), s.ledger, i, r);
  }

  lemma {:induction false} DropCovers(cfg: Config, s: System, i: nat)
    requires cfg.span == cfg.window && Covers(cfg, s) && Next(cfg, s, Drop(i)).Some?
    ensures Covers(cfg, Next(cfg, s, Drop(i)).value)
  {
    var n := Next(cfg, s, Drop(i)).value;
    SumsDrop(cfg, s, i, s.now);
    if s.bucket.observed.Some? {
      SumsDrop(cfg, s, i, s.bucket.observed.value.at);
    }
    forall q | q in n.ledger && (q.Answered? || q.Closed? || q.Unseen?)
      ensures exists p :: p in s.ledger && (p.Answered? || p.Closed? || p.Unseen?) && p.at == q.at
    {
      var k :| 0 <= k < |n.ledger| && n.ledger[k] == q;
      assert s.ledger[k] in s.ledger && s.ledger[k].at == q.at;
    }
    SameChargesCover(cfg, s, n);
  }

  lemma {:induction false} NextCovers(cfg: Config, s: System, step: Step)
    requires cfg.delivery.Prompt? && cfg.span == cfg.window && Kept(cfg, s) && Covers(cfg, s)
    requires Next(cfg, s, step).Some?
    ensures Covers(cfg, Next(cfg, s, step).value)
  {
    match step
    case Tick(elapsed) => SumFades(s.ledger, cfg.window, s.now, s.now + elapsed);
    case Poll => SettleCovers(cfg, s);
    case Acquire =>
      SettleCovers(cfg, s);
      var p := Settle(cfg, s);
      ReserveCovers(cfg, p, ReservationCost(p.bucket), p.bucket.inFlight + ReservationCost(p.bucket));
    case Record(i, hold) => NothingRecordedLate(cfg, s, i, hold);
    case Respond(i, tokens, reports, hold) => RespondCovers(cfg, s, i, tokens, reports, hold);
    case Drop(i) => DropCovers(cfg, s, i);
    case Slip => ReserveCovers(cfg, s, 0, s.bucket.inFlight);
    case Lose(i, tokens) =>
    case Understate(tokens) =>
    case ForeignCharge(tokens) =>
  }

  lemma {:induction false} RunCovers(cfg: Config, s: System, steps: seq<Step>)
    requires cfg.delivery.Prompt? && cfg.span == cfg.window && Kept(cfg, s) && Covers(cfg, s)
    requires Run(cfg, s, steps).Some?
    ensures Kept(cfg, Run(cfg, s, steps).value) && Covers(cfg, Run(cfg, s, steps).value)
    decreases |steps|
  {
    if steps != [] {
      NextKeeps(cfg, s, steps[0]);
      NextCovers(cfg, s, steps[0]);
      RunCovers(cfg, Next(cfg, s, steps[0]).value, steps[1..]);
    }
  }

  /** Whether the bucket still goes by a figure at `t`. */
  predicate HasFigure(cfg: Config, s: System, t: nat) {
    s.bucket.observed.Some? && t < s.bucket.observed.value.at + cfg.window
  }

  /** When the estimate exceeds what the server has left. With a figure: the
      server was over its limit when the figure was taken, which therefore came as
      zero; a recorded spend has been released since; the unrecorded ones
      released with it do not make up the excess; and the server has not got the
      whole bucket left. Without one: the bucket is larger than the server's limit
      and not all spent. */
  ghost predicate Misled(cfg: Config, s: System, t: nat) {
    if HasFigure(cfg, s, t) then
      && SpentThen(cfg, s) > cfg.limit
      && OwnReleased(cfg, s, t) > 0
      && OthersReleased(cfg, s, t) < SpentThen(cfg, s) - cfg.limit
      && Remaining(cfg, s, t) < cfg.maxTokens
    else
      cfg.limit < cfg.maxTokens && Sum(Noted(cfg.window, t), s.ledger) < cfg.maxTokens
  }

  /** The figure plus what was recorded and released since, against what the server has left. */
  lemma {:induction false} FigureAgainstServer(max: nat, limit: nat, noted: nat, others: nat, notedNow: nat,
                                               othersNow: nat)
    requires notedNow <= noted && othersNow <= others
    ensures Min(Monus(limit, noted + others) + (noted - notedNow), max) <= Monus(limit, notedNow + othersNow) <==>
              !(noted + others > limit && notedNow < noted && others - othersNow < noted + others - limit
                && Monus(limit, notedNow + othersNow) < max)
  {
  }

  /** While every unseen charge precedes the last figure, and until a hold is
      lifted, the settled estimate is safe at a later instant exactly when it is
      not misled, by a figure the server could not state or by its own size. */
  lemma {:induction false} EstimateExactly(cfg: Config, s: System, t: nat)
    requires cfg.delivery.Prompt? && cfg.span == cfg.window > 0 && Reachable(cfg, s) && s.covered
    requires t >= s.now && (s.bucket.blockedUntil.Some? ==> t < s.bucket.blockedUntil.value)
    ensures Base(Settled(s.bucket, t)) <= Remaining(cfg, s, t) <==> !Misled(cfg, s, t)
  {
    ReachableCovers(cfg, s);
    EstimateNow(cfg, s, t);
    WindowSplits(cfg, s, t);
    if s.bucket.observed.Some? {
      var o := s.bucket.observed.value;
      WindowSplits(cfg, s, o.at);
      SumFades(s.ledger, cfg.window, o.at, t);
      NotedFades(s.ledger, cfg.window, o.at, t);
      FigureAgainstServer(cfg.maxTokens, cfg.limit,
                          Sum(Noted(cfg.window, o.at), s.ledger), Sum(Others(cfg.window, o.at), s.ledger),
                          Sum(Noted(cfg.window, t), s.ledger), Sum(Others(cfg.window, t), s.ledger));
    }
  }

  lemma {:induction false} ReachableCovers(cfg: Config, s: System)
    requires cfg.delivery.Prompt? && cfg.span == cfg.window > 0 && Reachable(cfg, s)
    ensures Kept(cfg, s) && Covers(cfg, s)
  {
    var steps :| Run(cfg, Start(cfg), steps) == Some(s);
    RunCovers(cfg, Start(cfg), steps);
  }

  lemma {:induction false} WindowSplits(cfg: Config, s: System, t: nat)
    requires cfg.delivery.Prompt? && cfg.span == cfg.window && Kept(cfg, s)
    ensures Spent(cfg, s, t) == Sum(Noted(cfg.window, t), s.ledger) + Sum(Others(cfg.window, t), s.ledger)
  {
    PromptServerCount(s.ledger, cfg.window, t);
  }

  /** The settled estimate from the ledger: the figure and what was released
      since, or, without a figure still good, what the records leave. */
  lemma {:induction false} EstimateNow(cfg: Config, s: System, t: nat)
    requires cfg.delivery.Prompt? && cfg.span == cfg.window && Kept(cfg, s) && Covers(cfg, s) && s.covered
    requires t >= s.now && (s.bucket.blockedUntil.Some? ==> t < s.bucket.blockedUntil.value)
    ensures var noted := Sum(Noted(cfg.window, t), s.ledger);
            if HasFigure(cfg, s, t) then
              var then' := Sum(Noted(cfg.window, s.bucket.observed.value.at), s.ledger);
              && noted <= then'
              && Base(Settled(s.bucket, t)) == Min(s.figure + (then' - noted), cfg.maxTokens)
            else
              Base(Settled(s.bucket, t)) == Monus(cfg.maxTokens, noted) && Sum(Others(cfg.window, t), s.ledger) == 0
  {
    SettledInClosedForm(s.bucket, s.now, t);
    LiveBounds(s.bucket.spends, cfg.window, t, t);
    assert Live(s.bucket.spends, cfg.window, t) == Sum(Noted(cfg.window, t), s.ledger);
    if s.bucket.observed.None? {
      SumFades(s.ledger, cfg.window, s.now, t);
    } else if t >= s.bucket.observed.value.at + cfg.window {
      OthersExpired(s.ledger, cfg.window, s.bucket.observed.value.at, t);
    }
  }

  /** A figure above zero is one the server was within its limit for, so with
      a bucket no larger than that limit the estimate is then safe at every later instant until a hold is lifted, also
      after the figure has gone stale and been dropped. */
  lemma {:induction false} EstimateIsSafe(cfg: Config, s: System, t: nat)
    requires cfg.delivery.Prompt? && cfg.span == cfg.window > 0 && Reachable(cfg, s) && s.covered
    requires cfg.maxTokens <= cfg.limit
    requires s.bucket.observed.Some? ==> s.figure > 0 || SpentThen(cfg, s) <= cfg.limit
    requires t >= s.now && (s.bucket.blockedUntil.Some? ==> t < s.bucket.blockedUntil.value)
    ensures Base(Settled(s.bucket, t)) <= Remaining(cfg, s, t)
  {
    ReachableCovers(cfg, s);
    EstimateExactly(cfg, s, t);
  }

  predicate RoomForTwo(cfg: Config) {
    cfg.delivery.Prompt? && cfg.maxTokens >= 2 * MAX_REQUEST_COST && cfg.limit >= 5 && cfg.span == cfg.window > 2
  }

  /** Such a run: two requests on their way, the first answered, somebody else
      spends the rest of the budget, and the second takes the server over it. */
  lemma {:induction false} FigureBelowZero(cfg: Config) returns (s: System, t: nat)
    requires RoomForTwo(cfg) && cfg.shared
    ensures Reachable(cfg, s) && s.covered && s.bucket.blockedUntil.None? && t >= s.now
    ensures Misled(cfg, s, t)
  {
    var first := [Acquire, Acquire, Respond(0, 5, true, None)];
    var second := [Tick(1), ForeignCharge(cfg.limit - 5), Tick(1), Respond(1, 5, true, None)];
    var half := FirstAnswer(cfg);
    s := SecondAnswer(cfg, half);
    t := cfg.window;
    RunAppend(cfg, Start(cfg), first, second);
    SaturatedFigure(cfg, s);
  }

  lemma {:induction false} FirstAnswer(cfg: Config) returns (s: System)
    requires RoomForTwo(cfg)
    ensures Run(cfg, Start(cfg), [Acquire, Acquire, Respond(0, 5, true, None)]) == Some(s)
    ensures s == System(0, BucketState(cfg.maxTokens, cfg.window,
                                       Some(Observation(Min(cfg.limit - 5, cfg.maxTokens), 0)),
                                       [Spend(0, 5)], 10, None),
                        [Answered(5, 0, 5, 0), Reserved(5)], true, cfg.limit - 5)
  {
    var b0 := Fresh(cfg.maxTokens, cfg.window);
    assert Settled(b0, 0) == b0 && Settled(b0.(inFlight := 5), 0) == b0.(inFlight := 5);
    var s1 := Next(cfg, Start(cfg), Acquire).value;
    var s2 := Next(cfg, s1, Acquire).value;
    assert s2 == System(0, b0.(inFlight := 10), [Reserved(5), Reserved(5)], true, 0);
    assert Settled(s2.bucket, 0) == s2.bucket;
    SumOfTwo(InWindow(cfg.window, 0), Reserved(5), Reserved(5));
    ReportedFigure(cfg, s2, 0, 5);
    s := Next(cfg, s2, Respond(0, 5, true, None)).value;
    assert Run(cfg, s2, [Respond(0, 5, true, None)]) == Some(s);
    assert Run(cfg, s1, [Acquire, Respond(0, 5, true, None)]) == Some(s);
  }

  lemma {:induction false} SecondAnswer(cfg: Config, s: System) returns (n: System)
    requires RoomForTwo(cfg) && cfg.shared
    requires s == System(0, BucketState(cfg.maxTokens, cfg.window,
                                        Some(Observation(Min(cfg.limit - 5, cfg.maxTokens), 0)),
                                       [Spend(0, 5)], 10, None),
                         [Answered(5, 0, 5, 0), Reserved(5)], true, cfg.limit - 5)
    ensures Run(cfg, s, [Tick(1), ForeignCharge(cfg.limit - 5), Tick(1), Respond(1, 5, true, None)]) == Some(n)
    ensures n.now == 2 && n.covered && n.bucket.blockedUntil.None? && n.bucket.observed == Some(Observation(0, 2))
    ensures n.ledger == [Answered(5, 0, 5, 0), Answered(5, 2, 5, 2), Unseen(1, cfg.limit - 5)]
  {
    var w, foreign := cfg.window, ForeignCharge(cfg.limit - 5);
    var s1 := s.(now := 1);
    SumOfTwo(InWindow(w, 1), Answered(5, 0, 5, 0), Reserved(5));
    var s2 := Next(cfg, s1, foreign).value;
    assert s2.ledger == [Answered(5, 0, 5, 0), Reserved(5), Unseen(1, cfg.limit - 5)];
    var s3 := s2.(now := 2);
    SumOfThree(InWindow(w, 2), Answered(5, 0, 5, 0), Reserved(5), Unseen(1, cfg.limit - 5));
    ReportedFigure(cfg, s3, 1, 5);
    var c := ChargeAt(cfg, s3, 1, 5, true);
    assert c.ledger == [Answered(5, 0, 5, 0), Charged(5, 2, 5, Some(0)), Unseen(1, cfg.limit - 5)];
    RecordedShape(s3.bucket, None, Some(5), Some(0), None, 2);
    assert Settled(s3.bucket, 2) == s3.bucket;
    n := Next(cfg, s3, Respond(1, 5, true, None)).value;
    assert Run(cfg, s3, [Respond(1, 5, true, None)]) == Some(n);
    assert Run(cfg, s2, [Tick(1), Respond(1, 5, true, None)]) == Some(n);
    assert Run(cfg, s1, [foreign, Tick(1), Respond(1, 5, true, None)]) == Some(n);
  }

  lemma {:induction false} SaturatedFigure(cfg: Config, s: System)
    requires cfg.maxTokens > 0 && cfg.limit >= 5 && cfg.span == cfg.window > 2
    requires s.bucket.observed == Some(Observation(0, 2))
    requires s.ledger == [Answered(5, 0, 5, 0), Answered(5, 2, 5, 2), Unseen(1, cfg.limit - 5)]
    ensures Misled(cfg, s, cfg.window)
  {
    var w, a, b, c := cfg.window, s.ledger[0], s.ledger[1], s.ledger[2];
    SumOfThree(InWindow(w, 2), a, b, c);
    SumOfThree(InWindow(w, w), a, b, c);
    SumOfThree(Noted(w, 2), a, b, c);
    SumOfThree(Noted(w, w), a, b, c);
    SumOfThree(Others(w, 2), a, b, c);
    SumOfThree(Others(w, w), a, b, c);
  }
}
