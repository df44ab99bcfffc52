/** Every run of one rate-limit group: the client's bucket, the server's floating
    window, and the requests in between, under any interleaving. */
module GroupRuns {
  import opened Prelude
  import opened BucketModel
  import opened Ledger

  /** How responses reach the bucket: recorded at the instant of the charge,
      or after any delay and in any order, with or without the server's
      remaining figure. */
  datatype Delivery = Prompt | DelayedWithoutFigure | DelayedWithFigure

  /** `maxTokens` and `window` are the bucket's, `limit` and `span` the server's.
      `shared`: others spend from the group too. `lossy`: a charge, or a part of
      it, can go unrecorded, because the request is cancelled or fails, or its
      answer has no figures or too small ones. `unmapped`: a request can leave
      without a reservation, because its operation's group or the group's limit
      is not known yet. */
  datatype Config = Config(
    maxTokens: nat,
    window: nat,
    limit: nat,
    span: nat,
    delivery: Delivery,
    shared: bool,
    lossy: bool,
    unmapped: bool)

  /** `covered` is set only while every charge without a record that is still
      inside the window was made before the last figure the bucket took from the
      server, and the bucket has not since thrown that figure away; it is set
      again by the next figure, or by an answer once no such charge is left.
      `figure`: that figure, as the server gave it. */
  datatype System = System(now: nat, bucket: BucketState, ledger: seq<Request>, covered: bool, figure: nat)

  datatype Step =
    | Tick(elapsed: nat)
    | Poll
    | Acquire
    | Charge(i: nat, tokens: nat, reports: bool)
    | Record(i: nat, hold: Option<nat>)
    | Respond(i: nat, tokens: nat, reports: bool, hold: Option<nat>)
    | Drop(i: nat)
    | Lose(i: nat, tokens: nat)
    | Understate(tokens: nat)
    | Slip
    | ForeignCharge(tokens: nat)

  function Start(cfg: Config): System {
    System(0, Fresh(cfg.maxTokens, cfg.window), [], true, 0)
  }

  /** What the server counts as spent at `t`. */
  function Spent(cfg: Config, s: System, t: nat): nat {
    Sum(InWindow(cfg.span, t), s.ledger)
  }

  function Remaining(cfg: Config, s: System, t: nat): nat {
    Monus(cfg.limit, Spent(cfg, s, t))
  }

  function Settle(cfg: Config, s: System): System {
    var lifted := s.bucket.blockedUntil.Some? && s.now >= s.bucket.blockedUntil.value;
    s.(bucket := Settled(s.bucket, s.now),
       covered := s.covered && (lifted ==> Sum(Others(cfg.span, s.now), s.ledger) == 0))
  }

  function ChargeAt(cfg: Config, s: System, i: nat, tokens: nat, reports: bool): System
    requires i < |s.ledger| && s.ledger[i].Reserved?
  {
    var charged := s.(ledger := s.ledger[i := Charged(s.ledger[i].cost, s.now, tokens, None)]);
    if reports
    then s.(ledger := s.ledger[i := Charged(s.ledger[i].cost, s.now, tokens, Some(Remaining(cfg, charged, s.now)))])
    else charged
  }

  function RecordAt(cfg: Config, s: System, i: nat, hold: Option<nat>): System
    requires i < |s.ledger| && s.ledger[i].Charged?
  {
    var r := s.ledger[i];
    s.(bucket := Recorded(s.bucket, None, Some(r.tokens), r.report, hold, s.now),
       ledger := s.ledger[i := Answered(r.cost, r.at, r.tokens, s.now)],
       covered := r.report.Some? || Sum(Others(cfg.span, s.now), s.ledger) == 0,
       figure := if r.report.Some? then r.report.value else s.figure)
  }

  /** A charged request ends without a record: only its reservation goes back. */
  function LoseAt(s: System, i: nat, tokens: nat): System
    requires i < |s.ledger| && (s.ledger[i].Reserved? || s.ledger[i].Charged?)
  {
    var r := s.ledger[i];
    s.(bucket := s.bucket.(inFlight := Monus(s.bucket.inFlight, r.cost)),
       ledger := s.ledger[i := Unseen(if r.Charged? then r.at else s.now, tokens)],
       covered := false)
  }

  /** The state after a step, or nothing if the step cannot happen there. */
  function Next(cfg: Config, s: System, step: Step): Option<System> {
    match step
    case Tick(elapsed) => Some(s.(now := s.now + elapsed))
    case Poll => Some(Settle(cfg, s))
    case Acquire =>
      var p := Settle(cfg, s);
      var cost := ReservationCost(p.bucket);
      if ReadyAt(p.bucket, p.now) > p.now then None
      else Some(p.(bucket := p.bucket.(inFlight := p.bucket.inFlight + cost), ledger := p.ledger + [Reserved(cost)]))
    case Charge(i, tokens, reports) =>
      if i < |s.ledger| && s.ledger[i].Reserved? && tokens <= MAX_REQUEST_COST
         && !cfg.delivery.Prompt? && (reports ==> cfg.delivery.DelayedWithFigure?)
      then Some(ChargeAt(cfg, s, i, tokens, reports)) else None
    case Record(i, hold) =>
      if i < |s.ledger| && s.ledger[i].Charged? then Some(RecordAt(cfg, s, i, hold)) else None
    case Respond(i, tokens, reports, hold) =>
      if i < |s.ledger| && s.ledger[i].Reserved? && tokens <= MAX_REQUEST_COST
         && (reports ==> !cfg.delivery.DelayedWithoutFigure?)
      then Some(RecordAt(cfg, ChargeAt(cfg, s, i, tokens, reports), i, hold)) else None
    case Drop(i) =>
      if i < |s.ledger| && (s.ledger[i].Reserved? || s.ledger[i].Answered?) then
        var r := s.ledger[i];
        Some(s.(bucket := s.bucket.(inFlight := Monus(s.bucket.inFlight, r.cost)),
                ledger := s.ledger[i := if r.Reserved? then Abandoned else Closed(r.at, r.tokens, r.recordedAt)]))
      else None
    case Lose(i, tokens) =>
      if cfg.lossy && i < |s.ledger|
         && ((s.ledger[i].Reserved? && tokens <= MAX_REQUEST_COST)
             || (s.ledger[i].Charged? && tokens == s.ledger[i].tokens))
      then Some(LoseAt(s, i, tokens)) else None
    case Understate(tokens) =>
      if cfg.lossy && tokens <= MAX_REQUEST_COST
      then Some(s.(ledger := s.ledger + [Unseen(s.now, tokens)], covered := false)) else None
    case Slip => if cfg.unmapped then Some(s.(ledger := s.ledger + [Reserved(0)])) else None
    case ForeignCharge(tokens) =>
      if cfg.shared && Spent(cfg, s, s.now) + tokens <= cfg.limit
      then Some(s.(ledger := s.ledger + [Unseen(s.now, tokens)], covered := false)) else None
  }

  function Run(cfg: Config, s: System, steps: seq<Step>): Option<System>
    decreases |steps|
  {
    if steps == [] then Some(s)
    else var next := Next(cfg, s, steps[0]); if next.None? then None else Run(cfg, next.value, steps[1..])
  }

  ghost predicate Reachable(cfg: Config, s: System) {
    exists steps :: Run(cfg, Start(cfg), steps) == Some(s)
  }

  lemma {:induction false} RunAppend(cfg: Config, s: System, first: seq<Step>, second: seq<Step>)
    requires Run(cfg, s, first).Some?
    ensures Run(cfg, s, first + second) == Run(cfg, Run(cfg, s, first).value, second)
    decreases |first|
  {
    if first == [] {
      assert first + second == second;
    } else {
      assert (first + second)[1..] == first[1..] + second;
      RunAppend(cfg, Next(cfg, s, first[0]).value, first[1..], second);
    }
  }

  // ----- what every step keeps -----

  ghost predicate Plausible(cfg: Config, now: nat, r: Request) {
    && (r.Reserved? || r.Charged? || r.Answered? ==>
          r.cost == Min(MAX_REQUEST_COST, cfg.maxTokens) || (cfg.unmapped && r.cost == 0))
    && (r.Charged? || r.Answered? || r.Closed? ==> r.tokens <= MAX_REQUEST_COST && r.at <= now)
    && (r.Charged? ==> !cfg.delivery.Prompt? && (r.report.Some? ==> cfg.delivery.DelayedWithFigure?))
    && (r.Charged? && r.report.Some? ==> r.report.value == 0 || r.report.value + r.tokens <= cfg.limit)
    && (r.Answered? || r.Closed? ==> r.at <= r.recordedAt <= now && (cfg.delivery.Prompt? ==> r.at == r.recordedAt))
    && (r.Unseen? ==> (cfg.shared || cfg.lossy) && r.at <= now)
  }

  /** The bucket's records show every answered charge for one window from its answer. */
  ghost predicate RecordsMatch(cfg: Config, s: System) {
    forall t {:trigger Sum(Noted(cfg.window, t), s.ledger)} ::
      t >= s.now ==> Live(s.bucket.spends, cfg.window, t) == Sum(Noted(cfg.window, t), s.ledger)
  }

  /** The bookkeeping: reservations are conserved, records complete. */
  ghost predicate Kept(cfg: Config, s: System) {
    && s.bucket.maxTokens == cfg.maxTokens && s.bucket.window == cfg.window > 0 && cfg.span > 0
    && WellFormed(s.bucket, s.now)
    && s.bucket.inFlight == Sum(Held, s.ledger)
    && (forall r :: r in s.ledger ==> Plausible(cfg, s.now, r))
    && RecordsMatch(cfg, s)
  }

  lemma {:induction false} SettleKeeps(cfg: Config, s: System)
    requires Kept(cfg, s)
    ensures Kept(cfg, Settle(cfg, s))
  {
    SettledInClosedForm(s.bucket, s.now, s.now);
    forall t | t >= s.now
      ensures Live(Settled(s.bucket, s.now).spends, cfg.window, t) == Sum(Noted(cfg.window, t), s.ledger)
    {
      SettledIsTidy(s.bucket, s.now, t);
    }
  }

  lemma {:induction false} AcquireKeeps(cfg: Config, s: System)
    requires Kept(cfg, s) && Next(cfg, s, Acquire).Some?
    ensures Kept(cfg, Next(cfg, s, Acquire).value)
  {
    SettleKeeps(cfg, s);
    var p, n := Settle(cfg, s), Next(cfg, s, Acquire).value;
    var r := Reserved(ReservationCost(p.bucket));
    SumAppend(Held, p.ledger, r);
    forall t | t >= s.now
      ensures Live(n.bucket.spends, cfg.window, t) == Sum(Noted(cfg.window, t), n.ledger)
    {
      SumAppend(Noted(cfg.window, t), p.ledger, r);
    }
  }

  /** Replacing a request by one of the same reserved cost and the same note. */
  lemma {:induction false} ReplaceKeeps(cfg: Config, s: System, i: nat, r: Request)
    requires Kept(cfg, s) && i < |s.ledger| && Plausible(cfg, s.now, r)
    requires Weigh(Held, r) == Weigh(Held, s.ledger[i])
    requires forall t :: Weigh(Noted(cfg.window, t), r) == Weigh(Noted(cfg.window, t), s.ledger[i])
    ensures Kept(cfg, s.(ledger := s.ledger[i := r]))
  {
    SumUpdate(Held, s.ledger, i, r);
    forall t | t >= s.now
      ensures Live(s.bucket.spends, cfg.window, t) == Sum(Noted(cfg.window, t), s.ledger[i := r])
    {
      SumUpdate(Noted(cfg.window, t), s.ledger, i, r);
    }
  }

  lemma {:induction false} ChargeKeeps(cfg: Config, s: System, i: nat, tokens: nat, reports: bool)
    requires Kept(cfg, s) && i < |s.ledger| && s.ledger[i].Reserved? && tokens <= MAX_REQUEST_COST
    requires !cfg.delivery.Prompt? && (reports ==> cfg.delivery.DelayedWithFigure?)
    ensures Kept(cfg, ChargeAt(cfg, s, i, tokens, reports))
  {
    ReportedFigure(cfg, s, i, tokens);
    assert s.ledger[i] in s.ledger;
    ReplaceKeeps(cfg, s, i, ChargeAt(cfg, s, i, tokens, reports).ledger[i]);
  }

  /** A server figure leaves room for the charge it came with, unless it is zero. */
  lemma {:induction false} ReportedFigure(cfg: Config, s: System, i: nat, tokens: nat)
    requires i < |s.ledger| && s.ledger[i].Reserved? && cfg.span > 0
    ensures var figure := ChargeAt(cfg, s, i, tokens, true).ledger[i].report.value;
            var after := Spent(cfg, ChargeAt(cfg, s, i, tokens, true), s.now);
            && figure == Monus(cfg.limit, after)
            && after == Spent(cfg, s, s.now) + tokens
  {
    var w := InWindow(cfg.span, s.now);
    SumUpdate(w, s.ledger, i, ChargeAt(cfg, s, i, tokens, true).ledger[i]);
    SumUpdate(w, s.ledger, i, ChargeAt(cfg, s, i, tokens, false).ledger[i]);
  }

  /** Recording an answer to a request charged now or earlier. */
  lemma {:induction false} RecordKeeps(cfg: Config, s: System, i: nat, charge: Request, hold: Option<nat>)
    requires Kept(cfg, s) && i < |s.ledger| && (s.ledger[i].Reserved? || s.ledger[i].Charged?)
    requires charge.Charged? && charge.cost == s.ledger[i].cost
    requires charge.tokens <= MAX_REQUEST_COST && charge.at <= s.now
    requires cfg.delivery.Prompt? ==> charge.at == s.now
    ensures Kept(cfg, RecordAt(cfg, s.(ledger := s.ledger[i := charge]), i, hold))
  {
    var r := Answered(charge.cost, charge.at, charge.tokens, s.now);
    var n := RecordAt(cfg, s.(ledger := s.ledger[i := charge]), i, hold);
    assert n.ledger == s.ledger[i := r];
    assert s.ledger[i] in s.ledger;
    RecordedIsWellFormed(s.bucket, None, Some(charge.tokens), charge.report, hold, s.now);
    SumUpdate(Held, s.ledger, i, r);
    RecordMatches(cfg, s, i, r, charge.report, hold);
  }

  lemma {:induction false} RecordMatches(cfg: Config, s: System, i: nat, r: Request, report: Option<nat>,
                                         hold: Option<nat>)
    requires Kept(cfg, s) && i < |s.ledger| && (s.ledger[i].Reserved? || s.ledger[i].Charged?)
    requires r.Answered? && r.recordedAt == s.now
    ensures RecordsMatch(cfg, s.(bucket := Recorded(s.bucket, None, Some(r.tokens), report, hold, s.now),
                                 ledger := s.ledger[i := r]))
  {
    forall t | t >= s.now
      ensures Live(Recorded(s.bucket, None, Some(r.tokens), report, hold, s.now).spends, cfg.window, t)
           == Sum(Noted(cfg.window, t), s.ledger[i := r])
    {
      RecordedSpends(s.bucket, None, Some(r.tokens), report, hold, s.now, t);
      SumUpdate(Noted(cfg.window, t), s.ledger, i, r);
    }
  }

  lemma {:induction false} DropKeeps(cfg: Config, s: System, i: nat)
    requires Kept(cfg, s) && Next(cfg, s, Drop(i)).Some?
    ensures Kept(cfg, Next(cfg, s, Drop(i)).value)
    ensures Next(cfg, s, Drop(i)).value.bucket.inFlight + s.ledger[i].cost == s.bucket.inFlight
  {
    var n := Next(cfg, s, Drop(i)).value;
    assert s.ledger[i] in s.ledger;
    SumUpdate(Held, s.ledger, i, n.ledger[i]);
    forall t | t >= s.now
      ensures Live(n.bucket.spends, cfg.window, t) == Sum(Noted(cfg.window, t), n.ledger)
    {
      SumUpdate(Noted(cfg.window, t), s.ledger, i, n.ledger[i]);
    }
  }

  lemma {:induction false} LoseKeeps(cfg: Config, s: System, i: nat, tokens: nat)
    requires Kept(cfg, s) && Next(cfg, s, Lose(i, tokens)).Some?
    ensures Kept(cfg, Next(cfg, s, Lose(i, tokens)).value)
  {
    var n := LoseAt(s, i, tokens);
    assert s.ledger[i] in s.ledger;
    SumUpdate(Held, s.ledger, i, n.ledger[i]);
    forall t | t >= s.now
      ensures Live(n.bucket.spends, cfg.window, t) == Sum(Noted(cfg.window, t), n.ledger)
    {
      SumUpdate(Noted(cfg.window, t), s.ledger, i, n.ledger[i]);
    }
  }

  /** A charge by somebody else, one an answer left out, or a request without a reservation. */
  lemma {:induction false} AppendKeeps(cfg: Config, s: System, r: Request, covered: bool)
    requires Kept(cfg, s) && Plausible(cfg, s.now, r) && (r.Unseen? || r == Reserved(0))
    ensures Kept(cfg, s.(ledger := s.ledger + [r], covered := covered))
  {
    SumAppend(Held, s.ledger, r);
    forall t | t >= s.now
      ensures Live(s.bucket.spends, cfg.window, t) == Sum(Noted(cfg.window, t), s.ledger + [r])
    {
      SumAppend(Noted(cfg.window, t), s.ledger, r);
    }
  }

  lemma {:induction false} NextKeeps(cfg: Config, s: System, step: Step)
    requires Kept(cfg, s) && Next(cfg, s, step).Some?
    ensures Kept(cfg, Next(cfg, s, step).value)
  {
    match step
    case Tick(elapsed) =>
    case Poll => SettleKeeps(cfg, s);
    case Acquire => AcquireKeeps(cfg, s);
    case Charge(i, tokens, reports) => ChargeKeeps(cfg, s, i, tokens, reports);
    case Record(i, hold) =>
      assert s.ledger[i] in s.ledger;
      assert s.ledger[i := s.ledger[i]] == s.ledger;
      RecordKeeps(cfg, s, i, s.ledger[i], hold);
    case Respond(i, tokens, reports, hold) =>
      RecordKeeps(cfg, s, i, ChargeAt(cfg, s, i, tokens, reports).ledger[i], hold);
    case Drop(i) => DropKeeps(cfg, s, i);
    case Lose(i, tokens) => LoseKeeps(cfg, s, i, tokens);
    case Understate(tokens) => AppendKeeps(cfg, s, Unseen(s.now, tokens), false);
    case Slip => AppendKeeps(cfg, s, Reserved(0), s.covered);
    case ForeignCharge(tokens) => AppendKeeps(cfg, s, Unseen(s.now, tokens), false);
  }

  lemma {:induction false} RunKeeps(cfg: Config, s: System, steps: seq<Step>)
    requires Kept(cfg, s) && Run(cfg, s, steps).Some?
    ensures Kept(cfg, Run(cfg, s, steps).value)
    decreases |steps|
  {
    if steps != [] {
      NextKeeps(cfg, s, steps[0]);
      RunKeeps(cfg, Next(cfg, s, steps[0]).value, steps[1..]);
    }
  }
}
