/** What holds of the groups of a whole limiter, and of none but safe ones. */
module LimiterSafety {
  import opened Prelude
  import opened BucketModel
  import opened Ledger
  import opened LimiterModel
  import opened GroupRefinement
  import opened Headline
  import opened SharedGroup
  import G = GroupRuns

  // ----- groups with charges the client has no record of -----

  /** The limiter's estimate for a group is safe at a later instant exactly when
      it is not misled, by a figure the server could not state or by its size. */
  lemma {:induction false} LimiterEstimateExactly(cfg: G.Config, spec: SpecTable, group: string, w: World, t: nat)
    requires cfg.span == cfg.window > 0 && Positive(spec) && Declares(cfg, spec, group)
    requires Reached(cfg, spec, group, w)
    requires cfg.delivery.Prompt? && w.covered && t >= w.m.now
    requires var hold := BucketIn(cfg, group, w.m.limiter).blockedUntil; hold.Some? ==> t < hold.value
    ensures var estimate := Base(Settled(BucketIn(cfg, group, w.m.limiter), t));
            var spent := Sum(InWindow(cfg.span, t), w.ledger);
            estimate <= Monus(cfg.limit, spent) <==> !Misled(cfg, Seen(cfg, group, w), t)
  {
    ReachedIsReachable(cfg, spec, group, w);
    EstimateExactly(cfg, Seen(cfg, group, w), t);
  }

  /** After a figure above zero, and no larger than the server's limit, it is safe. */
  lemma {:induction false} LimiterEstimateIsSafe(cfg: G.Config, spec: SpecTable, group: string, w: World, t: nat)
    requires cfg.span == cfg.window > 0 && Positive(spec) && Declares(cfg, spec, group)
    requires Reached(cfg, spec, group, w)
    requires cfg.maxTokens <= cfg.limit && cfg.delivery.Prompt? && w.covered && t >= w.m.now
    requires var b := BucketIn(cfg, group, w.m.limiter);
             && (b.blockedUntil.Some? ==> t < b.blockedUntil.value)
             && (b.observed.Some? ==> w.figure > 0 || SpentThen(cfg, Seen(cfg, group, w)) <= cfg.limit)
    ensures Base(Settled(BucketIn(cfg, group, w.m.limiter), t))
         <= Monus(cfg.limit, Sum(InWindow(cfg.span, t), w.ledger))
  {
    ReachedIsReachable(cfg, spec, group, w);
    EstimateIsSafe(cfg, Seen(cfg, group, w), t);
  }

  // ----- every run of the group is one of the limiter -----

  /** Nothing learnt, and all live reservations of the group worth the same. */
  ghost predicate Straight(cfg: G.Config, spec: SpecTable, group: string, op: string, w: World) {
    && InOrder(cfg, spec, group, w)
    && op in spec && spec[op].group == group
    && w.m.limiter.learned == map[]
    && (forall r <- w.m.live :: r.group == Some(group) ==> r.tokens == Min(MAX_REQUEST_COST, cfg.maxTokens))
  }

  /** The act is possible, is this step of the group, and keeps things straight. */
  ghost predicate Serves(cfg: G.Config, spec: SpecTable, group: string, op: string, w: World, step: G.Step, act: Act) {
    && Go(cfg, spec, group, w, act).Some?
    && GroupStep(group, w, act, spec) == Some(step)
    && Straight(cfg, spec, group, op, Go(cfg, spec, group, w, act).value)
  }

  lemma {:induction false} AcquireServed(cfg: G.Config, spec: SpecTable, group: string, op: string, w: World)
    requires Straight(cfg, spec, group, op, w) && G.Next(cfg, Seen(cfg, group, w), G.Acquire).Some?
    ensures Serves(cfg, spec, group, op, w, G.Acquire, Ask(op))
  {
    PollOnGroup(cfg, spec, group, w.m.limiter, op, w.m.now);
    StaysInOrder(cfg, spec, group, w, Ask(op));
  }

  /** A request of an operation the specification lacks has no reservation. */
  lemma {:induction false} SlipServed(cfg: G.Config, spec: SpecTable, group: string, op: string, stranger: string,
                                      w: World)
    requires Straight(cfg, spec, group, op, w) && cfg.unmapped && stranger !in spec
    ensures Serves(cfg, spec, group, op, w, G.Slip, Ask(stranger))
  {
    UnknownAsk(cfg, spec, group, stranger, w);
    StaysInOrder(cfg, spec, group, w, Ask(stranger));
  }

  function Told(tokens: nat, report: Option<nat>, hold: Option<nat>): Figures {
    Figures(None, None, report, Some(tokens), hold)
  }

  lemma {:induction false} RecordServed(cfg: G.Config, spec: SpecTable, group: string, op: string, w: World, i: nat,
                                        hold: Option<nat>)
    requires Straight(cfg, spec, group, op, w) && G.Next(cfg, Seen(cfg, group, w), G.Record(i, hold)).Some?
    ensures Serves(cfg, spec, group, op, w, G.Record(i, hold),
                   Answer(i, op, Told(w.ledger[i].tokens, w.ledger[i].report, hold)))
  {
    StaysInOrder(cfg, spec, group, w, Answer(i, op, Told(w.ledger[i].tokens, w.ledger[i].report, hold)));
  }

  lemma {:induction false} RespondServed(cfg: G.Config, spec: SpecTable, group: string, op: string, w: World, i: nat,
                                         tokens: nat, reports: bool, hold: Option<nat>) returns (act: Act)
    requires Straight(cfg, spec, group, op, w)
    requires G.Next(cfg, Seen(cfg, group, w), G.Respond(i, tokens, reports, hold)).Some?
    ensures Serves(cfg, spec, group, op, w, G.Respond(i, tokens, reports, hold), act)
  {
    var report := G.ChargeAt(cfg, Seen(cfg, group, w), i, tokens, reports).ledger[i].report;
    act := Reply(i, tokens, reports, op, Told(tokens, report, hold));
    StaysInOrder(cfg, spec, group, w, act);
  }

  /** A held reservation is among the live ones. */
  lemma {:induction false} LiveOne(cfg: G.Config, spec: SpecTable, group: string, op: string, w: World, i: nat)
    returns (k: nat)
    requires Straight(cfg, spec, group, op, w) && i < |w.ledger|
    requires w.ledger[i].Reserved? || w.ledger[i].Charged? || w.ledger[i].Answered?
    requires w.ledger[i].cost > 0
    ensures Holds(w.m, k, group, w.ledger[i].cost)
  {
    assert w.ledger[i] in w.ledger;
    SumUpdate(Held, w.ledger, i, w.ledger[i]);
    assert Weigh(Held, w.ledger[i]) > 0;
    k := SomeOutstanding(w.m.live, group);
    assert w.m.live[k] in w.m.live;
  }

  lemma {:induction false} SomeOutstanding(live: seq<Reservation>, group: string) returns (k: nat)
    requires Outstanding(live, group) > 0
    ensures k < |live| && live[k].group == Some(group)
  {
    if live[0].group == Some(group) {
      k := 0;
    } else {
      k := SomeOutstanding(live[1..], group);
      k := k + 1;
    }
  }

  lemma {:induction false} ReturnServed(cfg: G.Config, spec: SpecTable, group: string, op: string, w: World,
                                        step: G.Step) returns (act: Act)
    requires Straight(cfg, spec, group, op, w) && G.Next(cfg, Seen(cfg, group, w), step).Some?
    requires step.Drop? || step.Lose?
    ensures Serves(cfg, spec, group, op, w, step, act)
  {
    var i := step.i;
    if w.ledger[i].cost == 0 {
      act := if step.Drop? then Part(i) else Vanish(i, step.tokens);
    } else {
      var k := LiveOne(cfg, spec, group, op, w, i);
      act := if step.Drop? then Drop(i, k) else Lose(i, k, step.tokens);
    }
    StaysInOrder(cfg, spec, group, w, act);
  }

  lemma {:induction false} PlainServed(cfg: G.Config, spec: SpecTable, group: string, op: string, w: World,
                                       step: G.Step, act: Act)
    requires Straight(cfg, spec, group, op, w) && G.Next(cfg, Seen(cfg, group, w), step).Some?
    requires match step
             case Tick(elapsed) => act == Elapse(elapsed)
             case Poll => act == Report
             case Charge(i, tokens, reports) => act == Charge(i, tokens, reports)
             case Understate(tokens) => act == Understate(tokens)
             case ForeignCharge(tokens) => act == ForeignCharge(tokens)
             case _ => false
    ensures Serves(cfg, spec, group, op, w, step, act)
  {
    StaysInOrder(cfg, spec, group, w, act);
  }

  /** For each step of the group there is an act of the limiter that is it. */
  lemma {:induction false} StepServed(cfg: G.Config, spec: SpecTable, group: string, op: string, stranger: string,
                                      w: World, step: G.Step) returns (act: Act)
    requires Straight(cfg, spec, group, op, w) && stranger !in spec
    requires G.Next(cfg, Seen(cfg, group, w), step).Some?
    ensures Serves(cfg, spec, group, op, w, step, act)
  {
    match step
    case Acquire =>
      act := Ask(op);
      AcquireServed(cfg, spec, group, op, w);
    case Slip =>
      act := Ask(stranger);
      SlipServed(cfg, spec, group, op, stranger, w);
    case Record(i, hold) =>
      act := Answer(i, op, Told(w.ledger[i].tokens, w.ledger[i].report, hold));
      RecordServed(cfg, spec, group, op, w, i, hold);
    case Respond(i, tokens, reports, hold) => act := RespondServed(cfg, spec, group, op, w, i, tokens, reports, hold);
    case Drop(_) => act := ReturnServed(cfg, spec, group, op, w, step);
    case Lose(_, _) => act := ReturnServed(cfg, spec, group, op, w, step);
    case Tick(elapsed) =>
      act := Elapse(elapsed);
      PlainServed(cfg, spec, group, op, w, step, act);
    case Poll =>
      act := Report;
      PlainServed(cfg, spec, group, op, w, step, act);
    case Charge(i, tokens, reports) =>
      act := Charge(i, tokens, reports);
      PlainServed(cfg, spec, group, op, w, step, act);
    case Understate(tokens) =>
      act := Understate(tokens);
      PlainServed(cfg, spec, group, op, w, step, act);
    case ForeignCharge(tokens) =>
      act := ForeignCharge(tokens);
      PlainServed(cfg, spec, group, op, w, step, act);
  }

  /** Every run of the group is a run of the limiter beside the server. */
  lemma {:induction false} GroupRunIsLimiterRun(cfg: G.Config, spec: SpecTable, group: string, op: string,
                                                stranger: string, w: World, steps: seq<G.Step>)
    returns (acts: seq<Act>)
    requires Straight(cfg, spec, group, op, w) && stranger !in spec
    requires G.Run(cfg, Seen(cfg, group, w), steps).Some?
    ensures GoAll(cfg, spec, group, w, acts).Some?
    ensures Some(Seen(cfg, group, GoAll(cfg, spec, group, w, acts).value)) == G.Run(cfg, Seen(cfg, group, w), steps)
    decreases |steps|
  {
    acts := [];
    if steps != [] {
      var act := StepServed(cfg, spec, group, op, stranger, w, steps[0]);
      var next := Go(cfg, spec, group, w, act).value;
      LimiterStepIsGroupStep(cfg, spec, group, w, act);
      var rest := GroupRunIsLimiterRun(cfg, spec, group, op, stranger, next, steps[1..]);
      acts := [act] + rest;
      GoAllCons(cfg, spec, group, w, act, rest, next);
    }
  }

  /** The states of the group that the limiter reaches are all that the group's own model reaches. */
  lemma {:induction false} ReachableIsReached(cfg: G.Config, spec: SpecTable, group: string, op: string,
                                              stranger: string, s: G.System) returns (w: World)
    requires cfg.window > 0 && cfg.span > 0 && Positive(spec) && Declares(cfg, spec, group)
    requires op in spec && spec[op].group == group && stranger !in spec && G.Reachable(cfg, s)
    ensures Reached(cfg, spec, group, w) && Seen(cfg, group, w) == s
  {
    var steps :| G.Run(cfg, G.Start(cfg), steps) == Some(s);
    var start := World(Machine(0, LimiterState(map[], map[]), []), [], true, 0);
    assert Seen(cfg, group, start) == G.Start(cfg);
    var acts := GroupRunIsLimiterRun(cfg, spec, group, op, stranger, start, steps);
    w := GoAll(cfg, spec, group, start, acts).value;
  }

  /** In no run of the limiter beside the server is the group overdrawn. */
  ghost predicate LimiterIsSafe(cfg: G.Config, spec: SpecTable, group: string) {
    forall w :: Reached(cfg, spec, group, w) ==> Sum(InWindow(cfg.span, w.m.now), w.ledger) <= cfg.limit
  }

  /** The whole limiter never overdraws a group, given one limit for it throughout
      and at least one operation of it, exactly when the group's configuration is safe. */
  lemma {:induction false} LimiterNeverOverdrawsExactly(cfg: G.Config, spec: SpecTable, group: string, op: string,
                                                        stranger: string)
    requires cfg.window >= SECOND && cfg.span >= SECOND && Positive(spec) && Declares(cfg, spec, group)
    requires op in spec && spec[op].group == group && stranger !in spec
    ensures LimiterIsSafe(cfg, spec, group) <==> Guarded(cfg)
  {
    NeverOverdrawsExactly(cfg);
    if Guarded(cfg) {
      forall w | Reached(cfg, spec, group, w) ensures Sum(InWindow(cfg.span, w.m.now), w.ledger) <= cfg.limit {
        LimiterNeverOverdraws(cfg, spec, group, w);
      }
    } else {
      var s :| G.Reachable(cfg, s) && G.Spent(cfg, s, s.now) > cfg.limit;
      var w := ReachableIsReached(cfg, spec, group, op, stranger, s);
    }
  }
}
