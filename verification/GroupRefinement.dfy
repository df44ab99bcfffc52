/** A whole limiter beside the server's window of one of its groups: every run of
    the two is a run of the group, so what holds of the group holds of the limiter. */
module GroupRefinement {
  import opened Prelude
  import opened BucketModel
  import opened Ledger
  import opened LimiterModel
  import opened Headline
  import G = GroupRuns

  /** The limiter, and the server's account of the group. */
  datatype World = World(m: Machine, ledger: seq<Ledger.Request>, covered: bool, figure: nat)

  /** `Ask`: a request the server counts in the group; `Answer`: the response to
      one charged earlier; `Reply`: charge and response at once; `Part` and
      `Vanish`: a request that reserved nothing is dropped or lost; `Aside`:
      whatever concerns other groups only, or has no figures. */
  datatype Act =
    | Elapse(time: nat)
    | Report
    | Ask(op: string)
    | Charge(i: nat, tokens: nat, reports: bool)
    | Answer(i: nat, op: string, f: Figures)
    | Reply(i: nat, tokens: nat, reports: bool, op: string, f: Figures)
    | Drop(i: nat, k: nat)
    | Lose(i: nat, k: nat, tokens: nat)
    | Part(i: nat)
    | Vanish(i: nat, tokens: nat)
    | Understate(tokens: nat)
    | ForeignCharge(tokens: nat)
    | Aside(step: Step)

  /** A limiter that has seen nothing, and a server that has charged nothing. */
  predicate AtStart(w: World) {
    && w.m.now == 0 && w.m.limiter.buckets == map[] && w.m.limiter.learned == map[] && w.m.live == []
    && w.ledger == [] && w.covered && w.figure == 0
  }

  /** The group's bucket, as it is or will be created. */
  function BucketIn(cfg: G.Config, group: string, st: LimiterState): BucketState {
    if group in st.buckets then st.buckets[group] else Fresh(cfg.maxTokens, cfg.window)
  }

  /** The group as its own model sees it. */
  function Seen(cfg: G.Config, group: string, w: World): G.System {
    G.System(w.m.now, BucketIn(cfg, group, w.m.limiter), w.ledger, w.covered, w.figure)
  }

  /** What the limiter is asked to do. */
  function LimiterStep(act: Act): Step {
    match act
    case Elapse(time) => Tick(time)
    case Report => Budgets
    case Ask(op) => Step.Request(op)
    case Answer(_, op, f) => Response(op, f)
    case Reply(_, _, _, op, f) => Response(op, f)
    case Drop(_, k) => Release(k)
    case Lose(_, k, _) => Release(k)
    case Aside(step) => step
    case _ => Tick(0)
  }

  /** What the limiter's answer to a request means for the group. */
  function AskStep(group: string, op: string, w: World, spec: SpecTable): Option<G.Step> {
    var result := Poll(w.m.limiter, spec, op, w.m.now).1;
    if result.Wait? then (if GroupOf(w.m.limiter, spec, op) == Some(group) then Some(G.Poll) else None)
    else if Granted(result).group == Some(group) then Some(G.Acquire)
    else Some(G.Slip)
  }

  function GroupStep(group: string, w: World, act: Act, spec: SpecTable): Option<G.Step> {
    match act
    case Elapse(time) => Some(G.Tick(time))
    case Report => Some(G.Poll)
    case Ask(op) => AskStep(group, op, w, spec)
    case Charge(i, tokens, reports) => Some(G.Charge(i, tokens, reports))
    case Answer(i, _, f) => Some(G.Record(i, f.hold))
    case Reply(i, tokens, reports, _, f) => Some(G.Respond(i, tokens, reports, f.hold))
    case Drop(i, _) => Some(G.Drop(i))
    case Lose(i, _, tokens) => Some(G.Lose(i, tokens))
    case Part(i) => Some(G.Drop(i))
    case Vanish(i, tokens) => Some(G.Lose(i, tokens))
    case Understate(tokens) => Some(G.Understate(tokens))
    case ForeignCharge(tokens) => Some(G.ForeignCharge(tokens))
    case Aside(_) => None
  }

  /** What the specification says in seconds is this limit. */
  predicate HasLimit(l: SpecLimit, maxTokens: nat, window: nat) {
    l.maxTokens == maxTokens && l.windowSecs * 1_000_000_000 == window
  }

  /** The response belongs to the group, with or without naming it or its limit,
      and says what was charged. */
  predicate Carries(cfg: G.Config, spec: SpecTable, group: string, st: LimiterState, op: string, f: Figures,
                    tokens: nat, report: Option<nat>)
  {
    && RecordGroup(st, spec, op, f) == Some(group)
    && (f.limit.Some? ==> f.limit.value == (cfg.maxTokens, cfg.window))
    && (group !in st.buckets && f.limit.None? ==> op in spec && HasLimit(spec[op], cfg.maxTokens, cfg.window))
    && f.used == Some(tokens) && f.remaining == report
  }

  predicate Holds(m: Machine, k: nat, group: string, tokens: nat) {
    k < |m.live| && m.live[k] == Reservation(Some(group), tokens)
  }

  /** The step leaves the group's bucket alone. */
  predicate Outside(spec: SpecTable, group: string, m: Machine, step: Step) {
    match step
    case Request(op) => GroupOf(m.limiter, spec, op) != Some(group)
    case Response(op, f) =>
      !Relevant(f) || RecordGroup(m.limiter, spec, op, f) != Some(group)
    case Release(k) => k < |m.live| ==> m.live[k].group != Some(group)
    case _ => false
  }

  /** Whether limiter and server can take the act together. */
  predicate Fits(cfg: G.Config, spec: SpecTable, group: string, w: World, act: Act) {
    match act
    case Answer(i, op, f) =>
      && i < |w.ledger| && w.ledger[i].Charged?
      && Carries(cfg, spec, group, w.m.limiter, op, f, w.ledger[i].tokens, w.ledger[i].report)
    case Reply(i, tokens, reports, op, f) =>
      && i < |w.ledger| && w.ledger[i].Reserved?
      && Carries(cfg, spec, group, w.m.limiter, op, f, tokens,
                 G.ChargeAt(cfg, Seen(cfg, group, w), i, tokens, reports).ledger[i].report)
    case Drop(i, k) =>
      i < |w.ledger| && (w.ledger[i].Reserved? || w.ledger[i].Answered?) && Holds(w.m, k, group, w.ledger[i].cost)
    case Lose(i, k, _) =>
      i < |w.ledger| && (w.ledger[i].Reserved? || w.ledger[i].Charged?) && Holds(w.m, k, group, w.ledger[i].cost)
    case Part(i) => i < |w.ledger| && (w.ledger[i].Reserved? || w.ledger[i].Answered?) && w.ledger[i].cost == 0
    case Vanish(i, _) => i < |w.ledger| && (w.ledger[i].Reserved? || w.ledger[i].Charged?) && w.ledger[i].cost == 0
    case Aside(step) => Outside(spec, group, w.m, step)
    case _ => true
  }

  /** The group after an act, by its own model. */
  function GroupAfter(cfg: G.Config, spec: SpecTable, group: string, w: World, act: Act): Option<G.System> {
    var step := GroupStep(group, w, act, spec);
    if step.None? then Some(Seen(cfg, group, w)) else G.Next(cfg, Seen(cfg, group, w), step.value)
  }

  /** The limiter does what it does; only the server's account is the group's. */
  function Go(cfg: G.Config, spec: SpecTable, group: string, w: World, act: Act): Option<World> {
    var after := GroupAfter(cfg, spec, group, w, act);
    if !Fits(cfg, spec, group, w, act) || after.None? then None
    else Some(World(Next(spec, w.m, LimiterStep(act)), after.value.ledger, after.value.covered, after.value.figure))
  }

  function GoAll(cfg: G.Config, spec: SpecTable, group: string, w: World, acts: seq<Act>): Option<World>
    decreases |acts|
  {
    if acts == [] then Some(w)
    else var next := Go(cfg, spec, group, w, acts[0]);
         if next.None? then None else GoAll(cfg, spec, group, next.value, acts[1..])
  }

  function LimiterSteps(acts: seq<Act>): seq<Step> {
    if acts == [] then [] else [LimiterStep(acts[0])] + LimiterSteps(acts[1..])
  }

  /** In every world the limiter is in a state of its own runs. */
  lemma {:induction false} LimiterRuns(cfg: G.Config, spec: SpecTable, group: string, w: World, acts: seq<Act>)
    requires GoAll(cfg, spec, group, w, acts).Some?
    ensures GoAll(cfg, spec, group, w, acts).value.m == Run(spec, w.m, LimiterSteps(acts))
    decreases |acts|
  {
    if acts != [] {
      LimiterRuns(cfg, spec, group, Go(cfg, spec, group, w, acts[0]).value, acts[1..]);
      assert LimiterSteps(acts)[1..] == LimiterSteps(acts[1..]);
    }
  }

  // ----- refinement -----

  /** The specification's limit for the group is the bucket's. */
  ghost predicate Declares(cfg: G.Config, spec: SpecTable, group: string) {
    forall op :: op in spec && spec[op].group == group ==> HasLimit(spec[op], cfg.maxTokens, cfg.window)
  }

  /** While the group has no bucket, no specified operation has been moved to it. */
  ghost predicate Unmoved(spec: SpecTable, group: string, st: LimiterState) {
    group !in st.buckets ==> forall op :: op in spec && op in st.learned ==> st.learned[op] != group
  }

  ghost predicate InOrder(cfg: G.Config, spec: SpecTable, group: string, w: World) {
    && Positive(spec) && Declares(cfg, spec, group) && Sound(w.m)
    && G.Kept(cfg, Seen(cfg, group, w)) && Unmoved(spec, group, w.m.limiter)
  }

  /** A limit the bucket already has changes nothing. */
  lemma {:induction false} SameLimit(b: BucketState, f: Figures, now: nat)
    requires f.limit.Some? ==> f.limit.value == (b.maxTokens, b.window)
    ensures Ingest(b, f, now) == Recorded(b, None, f.used, f.remaining, f.hold, now)
  {
  }

  /** What a poll does to the group's bucket. */
  lemma {:induction false} PollOnGroup(cfg: G.Config, spec: SpecTable, group: string, st: LimiterState, op: string,
                                       now: nat)
    requires Declares(cfg, spec, group) && Unmoved(spec, group, st)
    ensures var (n, result) := Poll(st, spec, op, now);
            var b := Settled(BucketIn(cfg, group, st), now);
            && Unmoved(spec, group, n)
            && (GroupOf(st, spec, op) == Some(group) ==>
                  && (result.Wait? ==> ReadyAt(b, now) > now && BucketIn(cfg, group, n) == b)
                  && (result.Admitted? ==>
                        && ReadyAt(b, now) <= now && result.reservation == Reservation(Some(group), ReservationCost(b))
                        && BucketIn(cfg, group, n) == b.(inFlight := b.inFlight + ReservationCost(b)))
                  && (result.Unlimited? ==> n == st))
            && (GroupOf(st, spec, op) != Some(group) ==>
                  Granted(result).group != Some(group) && BucketIn(cfg, group, n) == BucketIn(cfg, group, st))
  {
  }

  /** Whatever the limiter admits to the group, the group's own model admits for
      the same tokens: only a request without a reservation is not modelled. */
  lemma {:induction false} AskGoesThrough(cfg: G.Config, spec: SpecTable, group: string, w: World, op: string)
    requires InOrder(cfg, spec, group, w)
    ensures Go(cfg, spec, group, w, Ask(op)).None? <==>
              !cfg.unmapped && !Poll(w.m.limiter, spec, op, w.m.now).1.Wait?
              && Granted(Poll(w.m.limiter, spec, op, w.m.now).1).group != Some(group)
  {
    PollOnGroup(cfg, spec, group, w.m.limiter, op, w.m.now);
  }

  /** The limiter's bucket after an act is the one in the group's own model. */
  ghost predicate Matches(cfg: G.Config, spec: SpecTable, group: string, w: World, act: Act) {
    var n := Next(spec, w.m, LimiterStep(act));
    var after := GroupAfter(cfg, spec, group, w, act);
    after.Some? ==>
      && n.now == after.value.now && BucketIn(cfg, group, n.limiter) == after.value.bucket
      && Unmoved(spec, group, n.limiter)
  }

  lemma {:induction false} AskInGroup(cfg: G.Config, spec: SpecTable, group: string, w: World, op: string)
    requires InOrder(cfg, spec, group, w) && GroupOf(w.m.limiter, spec, op) == Some(group)
    ensures Matches(cfg, spec, group, w, Ask(op))
  {
    PollOnGroup(cfg, spec, group, w.m.limiter, op, w.m.now);
  }

  lemma {:induction false} AskElsewhere(cfg: G.Config, spec: SpecTable, group: string, w: World, op: string)
    requires InOrder(cfg, spec, group, w) && GroupOf(w.m.limiter, spec, op) != Some(group)
    ensures Matches(cfg, spec, group, w, Ask(op))
  {
    PollOnGroup(cfg, spec, group, w.m.limiter, op, w.m.now);
    assert AskStep(group, op, w, spec) == None || AskStep(group, op, w, spec) == Some(G.Slip);
  }

  lemma {:induction false} AskMatches(cfg: G.Config, spec: SpecTable, group: string, w: World, op: string)
    requires InOrder(cfg, spec, group, w)
    ensures Matches(cfg, spec, group, w, Ask(op))
  {
    if GroupOf(w.m.limiter, spec, op) == Some(group) {
      AskInGroup(cfg, spec, group, w, op);
    } else {
      AskElsewhere(cfg, spec, group, w, op);
    }
  }

  lemma {:induction false} ResponseMatches(cfg: G.Config, spec: SpecTable, group: string, w: World, op: string,
                                           f: Figures, tokens: nat, report: Option<nat>)
    requires InOrder(cfg, spec, group, w)
    requires Carries(cfg, spec, group, w.m.limiter, op, f, tokens, report)
    ensures var n := Next(spec, w.m, Response(op, f)).limiter;
            && group in n.buckets
            && n.buckets[group]
            == Recorded(BucketIn(cfg, group, w.m.limiter), None, Some(tokens), report, f.hold, w.m.now)
  {
    SameLimit(BucketIn(cfg, group, w.m.limiter), f, w.m.now);
  }

  lemma {:induction false} ReleaseMatches(cfg: G.Config, group: string, w: World, i: nat, k: nat)
    requires Sound(w.m) && i < |w.ledger| && (w.ledger[i].Reserved? || w.ledger[i].Charged? || w.ledger[i].Answered?)
    requires Holds(w.m, k, group, w.ledger[i].cost)
    ensures var n := GiveBack(w.m.limiter, w.m.live[k]);
            var b := BucketIn(cfg, group, w.m.limiter);
            && n.learned == w.m.limiter.learned && n.buckets.Keys == w.m.limiter.buckets.Keys
            && BucketIn(cfg, group, n) == b.(inFlight := Monus(b.inFlight, w.ledger[i].cost))
  {
    assert w.m.live[k] in w.m.live;
  }

  lemma {:induction false} ReportMatches(cfg: G.Config, spec: SpecTable, group: string, w: World)
    requires InOrder(cfg, spec, group, w)
    ensures Matches(cfg, spec, group, w, Report)
  {
  }

  lemma {:induction false} OtherResponse(cfg: G.Config, spec: SpecTable, group: string, st: LimiterState, op: string,
                                         f: Figures, now: nat)
    requires Unmoved(spec, group, st) && (!Relevant(f) || RecordGroup(st, spec, op, f) != Some(group))
    ensures var n := RecordResponse(st, spec, op, f, now);
            BucketIn(cfg, group, n) == BucketIn(cfg, group, st) && Unmoved(spec, group, n)
  {
  }

  lemma {:induction false} AsideMatches(cfg: G.Config, spec: SpecTable, group: string, w: World, step: Step)
    requires InOrder(cfg, spec, group, w) && Outside(spec, group, w.m, step)
    ensures Matches(cfg, spec, group, w, Aside(step))
  {
    if step.Request? {
      PollOnGroup(cfg, spec, group, w.m.limiter, step.op, w.m.now);
    } else if step.Response? {
      OtherResponse(cfg, spec, group, w.m.limiter, step.op, step.f, w.m.now);
    }
  }

  /** Time, charges at the server alone, and requests that reserved nothing. */
  lemma {:induction false} ServerActMatches(cfg: G.Config, spec: SpecTable, group: string, w: World, act: Act)
    requires InOrder(cfg, spec, group, w) && Fits(cfg, spec, group, w, act)
    requires || act.Elapse? || act.Charge? || act.Understate? || act.ForeignCharge? || act.Part? || act.Vanish?
    ensures Matches(cfg, spec, group, w, act)
  {
  }

  lemma {:induction false} AnswerMatches(cfg: G.Config, spec: SpecTable, group: string, w: World, i: nat, op: string,
                                         f: Figures)
    requires InOrder(cfg, spec, group, w) && Fits(cfg, spec, group, w, Answer(i, op, f))
    ensures Matches(cfg, spec, group, w, Answer(i, op, f))
  {
    ResponseMatches(cfg, spec, group, w, op, f, w.ledger[i].tokens, w.ledger[i].report);
  }

  lemma {:induction false} ReplyMatches(cfg: G.Config, spec: SpecTable, group: string, w: World, i: nat, tokens: nat,
                                        reports: bool, op: string, f: Figures)
    requires InOrder(cfg, spec, group, w) && Fits(cfg, spec, group, w, Reply(i, tokens, reports, op, f))
    ensures Matches(cfg, spec, group, w, Reply(i, tokens, reports, op, f))
  {
    var report := G.ChargeAt(cfg, Seen(cfg, group, w), i, tokens, reports).ledger[i].report;
    ResponseMatches(cfg, spec, group, w, op, f, tokens, report);
  }

  lemma {:induction false} ReturnMatches(cfg: G.Config, spec: SpecTable, group: string, w: World, act: Act)
    requires InOrder(cfg, spec, group, w) && Fits(cfg, spec, group, w, act) && (act.Drop? || act.Lose?)
    ensures Matches(cfg, spec, group, w, act)
  {
    ReleaseMatches(cfg, group, w, act.i, act.k);
  }

  lemma {:induction false} ActMatches(cfg: G.Config, spec: SpecTable, group: string, w: World, act: Act)
    requires InOrder(cfg, spec, group, w) && Fits(cfg, spec, group, w, act)
    ensures Matches(cfg, spec, group, w, act)
  {
    match act
    case Ask(op) => AskMatches(cfg, spec, group, w, op);
    case Answer(i, op, f) => AnswerMatches(cfg, spec, group, w, i, op, f);
    case Reply(i, tokens, reports, op, f) => ReplyMatches(cfg, spec, group, w, i, tokens, reports, op, f);
    case Drop(_, _) => ReturnMatches(cfg, spec, group, w, act);
    case Lose(_, _, _) => ReturnMatches(cfg, spec, group, w, act);
    case Report => ReportMatches(cfg, spec, group, w);
    case Aside(step) => AsideMatches(cfg, spec, group, w, step);
    case _ => ServerActMatches(cfg, spec, group, w, act);
  }

  /** Each act does to the limiter's bucket of the group what the group's own model does. */
  lemma {:induction false} LimiterStepIsGroupStep(cfg: G.Config, spec: SpecTable, group: string, w: World, act: Act)
    requires InOrder(cfg, spec, group, w) && Go(cfg, spec, group, w, act).Some?
    ensures Seen(cfg, group, Go(cfg, spec, group, w, act).value) == GroupAfter(cfg, spec, group, w, act).value
    ensures Unmoved(spec, group, Go(cfg, spec, group, w, act).value.m.limiter)
  {
    ActMatches(cfg, spec, group, w, act);
  }

  lemma {:induction false} StaysInOrder(cfg: G.Config, spec: SpecTable, group: string, w: World, act: Act)
    requires InOrder(cfg, spec, group, w) && Go(cfg, spec, group, w, act).Some?
    ensures InOrder(cfg, spec, group, Go(cfg, spec, group, w, act).value)
  {
    LimiterStepIsGroupStep(cfg, spec, group, w, act);
    NextStaysSound(spec, w.m, LimiterStep(act));
    var step := GroupStep(group, w, act, spec);
    if step.Some? {
      G.NextKeeps(cfg, Seen(cfg, group, w), step.value);
    }
  }

  /** Every run of the limiter beside the server is a run of the group. */
  lemma {:induction false} LimiterRunIsGroupRun(cfg: G.Config, spec: SpecTable, group: string, w: World,
                                                acts: seq<Act>)
    returns (steps: seq<G.Step>)
    requires InOrder(cfg, spec, group, w) && GoAll(cfg, spec, group, w, acts).Some?
    ensures G.Run(cfg, Seen(cfg, group, w), steps) == Some(Seen(cfg, group, GoAll(cfg, spec, group, w, acts).value))
    decreases |acts|
  {
    steps := [];
    if acts != [] {
      var next := Go(cfg, spec, group, w, acts[0]).value;
      LimiterStepIsGroupStep(cfg, spec, group, w, acts[0]);
      StaysInOrder(cfg, spec, group, w, acts[0]);
      var rest := LimiterRunIsGroupRun(cfg, spec, group, next, acts[1..]);
      var step := GroupStep(group, w, acts[0], spec);
      steps := if step.Some? then [step.value] + rest else rest;
      assert step.Some? ==> steps[1..] == rest;
    }
  }

  /** Some run of the limiter beside the server ends in `w`. */
  ghost predicate Reached(cfg: G.Config, spec: SpecTable, group: string, w: World) {
    exists start, acts :: AtStart(start) && GoAll(cfg, spec, group, start, acts) == Some(w)
  }

  lemma {:induction false} ReachedIsReachable(cfg: G.Config, spec: SpecTable, group: string, w: World)
    requires cfg.window > 0 && cfg.span > 0 && Positive(spec) && Declares(cfg, spec, group)
    requires Reached(cfg, spec, group, w)
    ensures G.Reachable(cfg, Seen(cfg, group, w))
  {
    var start, acts :| AtStart(start) && GoAll(cfg, spec, group, start, acts) == Some(w);
    assert Seen(cfg, group, start) == G.Start(cfg);
    var steps := LimiterRunIsGroupRun(cfg, spec, group, start, acts);
  }

  /** The limiter as a whole, with any number of operations and other groups,
      never lets the group's budget be overdrawn, and what is still unanswered
      could cost its worst case. */
  lemma {:induction false} LimiterNeverOverdraws(cfg: G.Config, spec: SpecTable, group: string, w: World)
    requires cfg.window > 0 && cfg.span > 0 && Positive(spec) && Declares(cfg, spec, group)
    requires Reached(cfg, spec, group, w)
    requires Guarded(cfg)
    ensures Sum(InWindow(cfg.span, w.m.now), w.ledger) <= cfg.limit
    ensures Live(BucketIn(cfg, group, w.m.limiter).spends, cfg.window, w.m.now) + Sum(Unrecorded, w.ledger)
         <= Budget(cfg) <= cfg.limit
  {
    ReachedIsReachable(cfg, spec, group, w);
    NoOverdraw(cfg, Seen(cfg, group, w));
  }

  /** With prompt delivery its estimate never exceeds what the server has left,
      now and later, and is the same if limits and windows are. */
  lemma {:induction false} LimiterMirrorsServer(cfg: G.Config, spec: SpecTable, group: string, w: World, t: nat)
    requires cfg.window > 0 && cfg.span > 0 && Positive(spec) && Declares(cfg, spec, group)
    requires Reached(cfg, spec, group, w)
    requires Guarded(cfg) && cfg.delivery.Prompt? && t >= w.m.now
    ensures var estimate := Base(Settled(BucketIn(cfg, group, w.m.limiter), t));
            var left := Monus(cfg.limit, Sum(InWindow(cfg.span, t), w.ledger));
            estimate <= left && (Mirrors(cfg) ==> estimate == left)
  {
    ReachedIsReachable(cfg, spec, group, w);
    EstimateMirrorsServer(cfg, Seen(cfg, group, w), t);
  }

  // ----- where the limiter cannot know -----

  lemma {:induction false} GoAllAppend(cfg: G.Config, spec: SpecTable, group: string, w: World, first: seq<Act>,
                                       second: seq<Act>)
    requires GoAll(cfg, spec, group, w, first).Some?
    ensures GoAll(cfg, spec, group, w, first + second)
         == GoAll(cfg, spec, group, GoAll(cfg, spec, group, w, first).value, second)
    decreases |first|
  {
    if first == [] {
      assert first + second == second;
    } else {
      assert (first + second)[1..] == first[1..] + second;
      GoAllAppend(cfg, spec, group, Go(cfg, spec, group, w, first[0]).value, first[1..], second);
    }
  }

  /** A request of an operation with no group leaves at once, whatever has been spent. */
  lemma {:induction false} UnknownAsk(cfg: G.Config, spec: SpecTable, group: string, op: string, w: World)
    requires cfg.unmapped && op !in spec && op !in w.m.limiter.learned
    ensures Poll(w.m.limiter, spec, op, w.m.now) == (w.m.limiter, Unlimited)
    ensures Go(cfg, spec, group, w, Ask(op)) == Some(w.(ledger := w.ledger + [Reserved(0)]))
  {
  }

  lemma {:induction false} UnknownReply(cfg: G.Config, spec: SpecTable, group: string, op: string, f: Figures,
                                        w: World, i: nat)
    requires op !in spec && i < |w.ledger| && w.ledger[i] == Reserved(0) && cfg.window > 0 && cfg.span > 0
    requires f == Figures(Some(group), Some((cfg.maxTokens, cfg.window)), None, Some(MAX_REQUEST_COST), None)
    ensures var n := Go(cfg, spec, group, w, Reply(i, MAX_REQUEST_COST, false, op, f));
            && n.Some? && n.value.m.now == w.m.now
            && n.value.ledger == w.ledger[i := Answered(0, w.m.now, MAX_REQUEST_COST, w.m.now)]
  {
  }

  /** An operation outside the specification, before its first answer: any number
      of requests leave at once, and are charged as they are answered. */
  lemma {:induction false} UnknownGroupOverdraws(cfg: G.Config, spec: SpecTable, group: string, op: string,
                                                 f: Figures, w: World, n: nat) returns (acts: seq<Act>)
    requires cfg.unmapped && cfg.window > 0 && cfg.span > 0 && op !in spec && op !in w.m.limiter.learned
    requires f == Figures(Some(group), Some((cfg.maxTokens, cfg.window)), None, Some(MAX_REQUEST_COST), None)
    ensures GoAll(cfg, spec, group, w, acts).Some?
    ensures var t := GoAll(cfg, spec, group, w, acts).value;
            && t.m.now == w.m.now && w.ledger <= t.ledger
            && Sum(InWindow(cfg.span, w.m.now), t.ledger)
            == Sum(InWindow(cfg.span, w.m.now), w.ledger) + MAX_REQUEST_COST * n
    decreases n
  {
    acts := [];
    if n > 0 {
      var i, ask, reply := |w.ledger|, Ask(op), Reply(|w.ledger|, MAX_REQUEST_COST, false, op, f);
      var w1 := w.(ledger := w.ledger + [Reserved(0)]);
      UnknownAsk(cfg, spec, group, op, w);
      var rest := UnknownGroupOverdraws(cfg, spec, group, op, f, w1, n - 1);
      var w2 := GoAll(cfg, spec, group, w1, rest).value;
      var charge := Answered(0, w.m.now, MAX_REQUEST_COST, w.m.now);
      ChargedInTheMiddle(w.ledger, w2.ledger, Reserved(0), charge, cfg.span, w.m.now);
      UnknownReply(cfg, spec, group, op, f, w2, i);
      var w3 := Go(cfg, spec, group, w2, reply).value;
      GoAllThree(cfg, spec, group, w, ask, rest, reply, w1, w2, w3);
      acts := [ask] + (rest + [reply]);
    }
  }

  lemma {:induction false} GoAllThree(cfg: G.Config, spec: SpecTable, group: string, w: World, first: Act,
                                      rest: seq<Act>, last: Act, w1: World, w2: World, w3: World)
    requires Go(cfg, spec, group, w, first) == Some(w1) && GoAll(cfg, spec, group, w1, rest) == Some(w2)
    requires Go(cfg, spec, group, w2, last) == Some(w3)
    ensures GoAll(cfg, spec, group, w, [first] + (rest + [last])) == Some(w3)
  {
    GoAllAppend(cfg, spec, group, w1, rest, [last]);
    assert [last][1..] == [];
    assert GoAll(cfg, spec, group, w3, []) == Some(w3);
    assert GoAll(cfg, spec, group, w2, [last]) == Some(w3);
    assert ([first] + (rest + [last]))[1..] == rest + [last];
  }

  /** The limiter has the group's budget untouched, and sends the operation's requests there. */
  ghost predicate Untouched(cfg: G.Config, spec: SpecTable, group: string, op: string, w: World) {
    && Declares(cfg, spec, group) && Unmoved(spec, group, w.m.limiter)
    && op in spec && GroupOf(w.m.limiter, spec, op) == Some(group)
    && BucketIn(cfg, group, w.m.limiter) == Fresh(cfg.maxTokens, cfg.window)
  }

  lemma {:induction false} UntouchedAsk(cfg: G.Config, spec: SpecTable, group: string, op: string, w: World)
    requires Untouched(cfg, spec, group, op, w)
    ensures var cost := Min(MAX_REQUEST_COST, cfg.maxTokens);
            var n := Go(cfg, spec, group, w, Ask(op));
            && n.Some? && group in n.value.m.limiter.buckets
            && n.value.m.limiter.buckets[group] == Fresh(cfg.maxTokens, cfg.window).(inFlight := cost)
            && n.value.m.limiter.learned == w.m.limiter.learned && n.value.m.now == w.m.now
            && n.value.m.live == w.m.live + [Reservation(Some(group), cost)]
            && n.value.ledger == w.ledger + [Reserved(cost)]
  {
    assert Settled(Fresh(cfg.maxTokens, cfg.window), w.m.now) == Fresh(cfg.maxTokens, cfg.window);
    PollOnGroup(cfg, spec, group, w.m.limiter, op, w.m.now);
  }

  lemma {:induction false} UntouchedLose(cfg: G.Config, spec: SpecTable, group: string, op: string, w: World)
    requires cfg.lossy && w.ledger != [] && w.m.live != []
    requires var cost := Min(MAX_REQUEST_COST, cfg.maxTokens);
             && w.ledger[|w.ledger| - 1] == Reserved(cost)
             && w.m.live[|w.m.live| - 1] == Reservation(Some(group), cost)
             && group in w.m.limiter.buckets
             && w.m.limiter.buckets[group] == Fresh(cfg.maxTokens, cfg.window).(inFlight := cost)
    ensures var n := Go(cfg, spec, group, w, Lose(|w.ledger| - 1, |w.m.live| - 1, MAX_REQUEST_COST));
            && n.Some? && n.value.m.now == w.m.now && n.value.m.limiter.learned == w.m.limiter.learned
            && group in n.value.m.limiter.buckets
            && n.value.m.limiter.buckets[group] == Fresh(cfg.maxTokens, cfg.window)
            && n.value.ledger == w.ledger[|w.ledger| - 1 := Unseen(w.m.now, MAX_REQUEST_COST)]
  {
  }

  /** One request whose answer carries no figures: admitted by a bucket that still
      looks full, charged, and given back. */
  lemma {:induction false} SilentRound(cfg: G.Config, spec: SpecTable, group: string, op: string, f: Figures, w: World)
    returns (acts: seq<Act>, n: World)
    requires cfg.lossy && !Relevant(f) && Untouched(cfg, spec, group, op, w)
    ensures |acts| == 3 && GoAll(cfg, spec, group, w, acts) == Some(n)
    ensures Untouched(cfg, spec, group, op, n) && n.m.now == w.m.now
    ensures n.ledger == w.ledger + [Unseen(w.m.now, MAX_REQUEST_COST)]
  {
    var silent := Aside(Response(op, f));
    UntouchedAsk(cfg, spec, group, op, w);
    var w1 := Go(cfg, spec, group, w, Ask(op)).value;
    assert Go(cfg, spec, group, w1, silent) == Some(w1);
    var lose := Lose(|w1.ledger| - 1, |w1.m.live| - 1, MAX_REQUEST_COST);
    UntouchedLose(cfg, spec, group, op, w1);
    n := Go(cfg, spec, group, w1, lose).value;
    acts := [Ask(op)] + ([silent] + ([lose] + []));
    GoAllCons(cfg, spec, group, w1, lose, [], n);
    GoAllCons(cfg, spec, group, w1, silent, [lose] + [], w1);
    GoAllCons(cfg, spec, group, w, Ask(op), [silent] + ([lose] + []), w1);
  }

  /** One after another they spend without end. */
  lemma {:induction false} SilentAnswersOverdraw(cfg: G.Config, spec: SpecTable, group: string, op: string,
                                                 f: Figures, w: World, n: nat) returns (acts: seq<Act>)
    requires cfg.lossy && cfg.span > 0 && !Relevant(f) && Untouched(cfg, spec, group, op, w)
    ensures GoAll(cfg, spec, group, w, acts).Some?
    ensures var t := GoAll(cfg, spec, group, w, acts).value;
            && t.m.now == w.m.now
            && Sum(InWindow(cfg.span, w.m.now), t.ledger)
            == Sum(InWindow(cfg.span, w.m.now), w.ledger) + MAX_REQUEST_COST * n
    decreases n
  {
    acts := [];
    if n > 0 {
      var first, next := SilentRound(cfg, spec, group, op, f, w);
      SumAppend(InWindow(cfg.span, w.m.now), w.ledger, Unseen(w.m.now, MAX_REQUEST_COST));
      var rest := SilentAnswersOverdraw(cfg, spec, group, op, f, next, n - 1);
      GoAllAppend(cfg, spec, group, w, first, rest);
      acts := first + rest;
    }
  }

  lemma {:induction false} GoAllCons(cfg: G.Config, spec: SpecTable, group: string, w: World, act: Act,
                                     rest: seq<Act>, next: World)
    requires Go(cfg, spec, group, w, act) == Some(next)
    ensures GoAll(cfg, spec, group, w, [act] + rest) == GoAll(cfg, spec, group, next, rest)
  {
    assert ([act] + rest)[1..] == rest;
  }
}
