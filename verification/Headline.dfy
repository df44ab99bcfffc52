/** When a client's own traffic can overdraw its group, and when it cannot. */
module Headline {
  import opened Prelude
  import opened BucketModel
  import opened Ledger
  import opened GroupRuns
  import opened Overdraws

  /** In no run does the server ever count more as spent than its limit. */
  ghost predicate NeverOverdraws(cfg: Config) {
    forall s :: Reachable(cfg, s) ==> Spent(cfg, s, s.now) <= cfg.limit
  }

  /** The bucket may ask for no more than the server allows, within the same window. */
  predicate SameWindow(cfg: Config) {
    MAX_REQUEST_COST <= cfg.maxTokens <= cfg.limit && cfg.span == cfg.window
  }

  /** Both allow just one worst case, and the server forgets it no later. */
  predicate OneWorstCase(cfg: Config) {
    cfg.maxTokens == cfg.limit == MAX_REQUEST_COST && cfg.span <= cfg.window
  }

  /** The configurations whose budget is safe. */
  predicate Guarded(cfg: Config)
    requires cfg.window > 0
  {
    && !cfg.shared && !cfg.lossy && !cfg.unmapped
    && match cfg.delivery
       case DelayedWithoutFigure => cfg.maxTokens > 0 && Windows(cfg) * Burst(cfg) <= cfg.limit
       case Prompt => SameWindow(cfg) || OneWorstCase(cfg)
       case DelayedWithFigure => OneWorstCase(cfg)
  }

  /** What one of the bucket's windows may hold. */
  function Budget(cfg: Config): nat {
    if cfg.delivery.DelayedWithoutFigure? then Burst(cfg) else cfg.limit
  }

  /** Bucket and server count alike. */
  predicate Mirrors(cfg: Config) {
    cfg.delivery.Prompt? && cfg.maxTokens == cfg.limit && cfg.span == cfg.window
  }

  /** The estimate never exceeds what own live spends leave, and live spends
      plus a worst case for every outstanding answer fit the budget. */
  ghost predicate WithinBudget(cfg: Config, s: System) {
    && (s.bucket.observed.Some? ==>
          && !cfg.delivery.DelayedWithoutFigure?
          && s.bucket.observed.value.remaining + Total(s.bucket.spends) <= cfg.limit
          && (Mirrors(cfg) ==> s.bucket.observed.value.remaining + Total(s.bucket.spends) == cfg.limit))
    && Live(s.bucket.spends, cfg.window, s.now) + Sum(Unrecorded, s.ledger) <= Budget(cfg)
  }

  // ----- one window of the bucket -----

  lemma {:induction false} SettledStaysWithinBudget(cfg: Config, s: System)
    requires Kept(cfg, s) && WithinBudget(cfg, s)
    ensures WithinBudget(cfg, Settle(cfg, s))
  {
    SettledInClosedForm(s.bucket, s.now, s.now);
    SettledIsTidy(s.bucket, s.now, s.now);
    LiveBounds(s.bucket.spends, cfg.window, s.now, s.now);
  }

  /** An admitted request finds room for its worst case, or, in a bucket too small
      for one, nothing spent and nothing on its way. */
  lemma {:induction false} RoomForOneMore(cfg: Config, s: System)
    requires cfg.window > 0 && Guarded(cfg) && Kept(cfg, s) && WithinBudget(cfg, s)
    requires Available(s.bucket) >= ReservationCost(s.bucket)
    ensures Total(s.bucket.spends) + Sum(Unrecorded, s.ledger) + MAX_REQUEST_COST <= Budget(cfg)
  {
    if cfg.maxTokens >= MAX_REQUEST_COST {
      HeldCoversUnrecorded(s.ledger);
    } else {
      NothingOutstanding(s.ledger);
    }
  }

  lemma {:induction false} AcquireStaysWithinBudget(cfg: Config, s: System)
    requires cfg.window > 0 && Guarded(cfg) && Kept(cfg, s) && WithinBudget(cfg, s) && Next(cfg, s, Acquire).Some?
    ensures WithinBudget(cfg, Next(cfg, s, Acquire).value)
  {
    SettledStaysWithinBudget(cfg, s);
    SettleKeeps(cfg, s);
    var p := Settle(cfg, s);
    SettledIsSettled(s.bucket, s.now, s.now);
    ReadyNowExactly(p.bucket, p.now);
    RoomForOneMore(cfg, p);
    LiveBounds(p.bucket.spends, cfg.window, p.now, p.now);
    SumAppend(Unrecorded, p.ledger, Reserved(ReservationCost(p.bucket)));
  }

  lemma {:induction false} RecordStaysWithinBudget(cfg: Config, s: System, i: nat, charge: Request, hold: Option<nat>)
    requires cfg.window > 0 && Guarded(cfg) && Kept(cfg, s) && WithinBudget(cfg, s)
    requires i < |s.ledger| && (s.ledger[i].Reserved? || s.ledger[i].Charged?)
    requires charge.Charged? && charge.cost == s.ledger[i].cost && charge.tokens <= MAX_REQUEST_COST
    requires charge.report.Some? ==> !cfg.delivery.DelayedWithoutFigure?
    requires charge.report.Some? ==> charge.report.value == 0 || charge.report.value + charge.tokens <= cfg.limit
    requires charge.report.Some? && cfg.delivery.Prompt? && cfg.span == cfg.window ==>
               charge.report.value == Monus(cfg.limit, Live(s.bucket.spends, cfg.window, s.now) + charge.tokens)
    ensures WithinBudget(cfg, RecordAt(cfg, s.(ledger := s.ledger[i := charge]), i, hold))
  {
    var r := Answered(charge.cost, charge.at, charge.tokens, s.now);
    var n := RecordAt(cfg, s.(ledger := s.ledger[i := charge]), i, hold);
    assert n.ledger == s.ledger[i := r];
    assert s.ledger[i] in s.ledger;
    RecordedSpends(s.bucket, None, Some(charge.tokens), charge.report, hold, s.now, s.now);
    RecordedShape(s.bucket, None, Some(charge.tokens), charge.report, hold, s.now);
    SettledIsTidy(s.bucket, s.now, s.now);
    SumUpdate(Unrecorded, s.ledger, i, r);
  }

  lemma {:induction false} RespondStaysWithinBudget(cfg: Config, s: System, i: nat, tokens: nat, reports: bool,
                                                    hold: Option<nat>)
    requires cfg.window > 0 && Guarded(cfg) && Kept(cfg, s) && WithinBudget(cfg, s)
    requires Next(cfg, s, Respond(i, tokens, reports, hold)).Some?
    ensures WithinBudget(cfg, Next(cfg, s, Respond(i, tokens, reports, hold)).value)
  {
    ReportedFigure(cfg, s, i, tokens);
    if cfg.delivery.Prompt? {
      PromptCount(cfg, s, s.now);
    }
    RecordStaysWithinBudget(cfg, s, i, ChargeAt(cfg, s, i, tokens, reports).ledger[i], hold);
  }

  lemma {:induction false} LateRecordStaysWithinBudget(cfg: Config, s: System, i: nat, hold: Option<nat>)
    requires cfg.window > 0 && Guarded(cfg) && Kept(cfg, s) && WithinBudget(cfg, s)
    requires Next(cfg, s, Record(i, hold)).Some?
    ensures WithinBudget(cfg, Next(cfg, s, Record(i, hold)).value)
  {
    assert s.ledger[i] in s.ledger;
    assert s.ledger[i := s.ledger[i]] == s.ledger;
    RecordStaysWithinBudget(cfg, s, i, s.ledger[i], hold);
  }

  lemma {:induction false} NextStaysWithinBudget(cfg: Config, s: System, step: Step)
    requires cfg.window > 0 && Guarded(cfg) && Kept(cfg, s) && WithinBudget(cfg, s) && Next(cfg, s, step).Some?
    ensures WithinBudget(cfg, Next(cfg, s, step).value)
  {
    match step
    case Tick(elapsed) => LiveBounds(s.bucket.spends, cfg.window, s.now, s.now + elapsed);
    case Poll => SettledStaysWithinBudget(cfg, s);
    case Acquire => AcquireStaysWithinBudget(cfg, s);
    case Charge(i, tokens, reports) =>
      SumUpdate(Unrecorded, s.ledger, i, ChargeAt(cfg, s, i, tokens, reports).ledger[i]);
    case Record(i, hold) => LateRecordStaysWithinBudget(cfg, s, i, hold);
    case Respond(i, tokens, reports, hold) => RespondStaysWithinBudget(cfg, s, i, tokens, reports, hold);
    case Drop(i) => SumUpdate(Unrecorded, s.ledger, i, Next(cfg, s, step).value.ledger[i]);
  }

  /** With prompt delivery and no other users the records are the server's
      window, or more than it if the server's is shorter. */
  lemma {:induction false} PromptCount(cfg: Config, s: System, t: nat)
    requires Kept(cfg, s) && cfg.delivery.Prompt? && !cfg.shared && !cfg.lossy && t >= s.now
    ensures cfg.span == cfg.window ==> Spent(cfg, s, t) == Live(s.bucket.spends, cfg.window, t)
    ensures cfg.span <= cfg.window ==> Spent(cfg, s, t) <= Live(s.bucket.spends, cfg.window, t)
  {
    PromptServerCount(s.ledger, cfg.window, t);
    NoOthers(s.ledger, cfg.window, t);
    if cfg.span <= cfg.window {
      ShorterWindow(s.ledger, cfg.span, cfg.window, t);
    }
  }

  /** What was charged in the bucket's window that ends now fits its budget. */
  lemma {:induction false} ThisWindow(cfg: Config, s: System)
    requires cfg.window > 0 && Guarded(cfg) && Kept(cfg, s) && WithinBudget(cfg, s)
    ensures Sum(InWindow(cfg.window, s.now), s.ledger) <= Budget(cfg)
    ensures Sum(Within(cfg.window, s.now), s.ledger) <= Budget(cfg)
  {
    ServerCountIsCovered(s.ledger, cfg.window, s.now);
    NoOthers(s.ledger, cfg.window, s.now);
    WindowEndingNow(s.ledger, cfg.window, s.now);
  }

  // ----- all its windows -----

  /** So did every earlier window. */
  ghost predicate AllWindows(cfg: Config, s: System) {
    forall t: nat {:trigger Sum(Within(cfg.window, t), s.ledger)} ::
      t <= s.now ==> Sum(Within(cfg.window, t), s.ledger) <= Budget(cfg)
  }

  /** A window that has ended does not hold what is charged now. */
  lemma {:induction false} PastAnswer(cfg: Config, s: System, i: nat, tokens: nat, reports: bool, hold: Option<nat>,
                                      w: nat, t: nat)
    requires Next(cfg, s, Respond(i, tokens, reports, hold)).Some? && t < s.now
    ensures Sum(Within(w, t), Next(cfg, s, Respond(i, tokens, reports, hold)).value.ledger)
         == Sum(Within(w, t), s.ledger)
  {
    var r := Answered(s.ledger[i].cost, s.now, tokens, s.now);
    assert Next(cfg, s, Respond(i, tokens, reports, hold)).value.ledger == s.ledger[i := r];
    SumUpdate(Within(w, t), s.ledger, i, r);
  }

  /** A step charges nothing to a window that has ended. */
  lemma {:induction false} PastWindow(cfg: Config, s: System, step: Step, w: nat, t: nat)
    requires cfg.window > 0 && Guarded(cfg) && Kept(cfg, s) && Next(cfg, s, step).Some? && t < s.now
    ensures Sum(Within(w, t), Next(cfg, s, step).value.ledger) == Sum(Within(w, t), s.ledger)
  {
    var n := Next(cfg, s, step).value;
    match step
    case Tick(elapsed) =>
    case Poll =>
    case Acquire => SumAppend(Within(w, t), s.ledger, n.ledger[|s.ledger|]);
    case Charge(i, tokens, reports) => SumUpdate(Within(w, t), s.ledger, i, n.ledger[i]);
    case Record(i, hold) => SumUpdate(Within(w, t), s.ledger, i, n.ledger[i]);
    case Respond(i, tokens, reports, hold) => PastAnswer(cfg, s, i, tokens, reports, hold, w, t);
    case Drop(i) => SumUpdate(Within(w, t), s.ledger, i, n.ledger[i]);
  }

  lemma {:induction false} NextKeepsWindows(cfg: Config, s: System, step: Step)
    requires cfg.window > 0 && Guarded(cfg) && Kept(cfg, s) && WithinBudget(cfg, s) && AllWindows(cfg, s)
    requires Next(cfg, s, step).Some?
    ensures AllWindows(cfg, Next(cfg, s, step).value)
  {
    var n := Next(cfg, s, step).value;
    NextKeeps(cfg, s, step);
    NextStaysWithinBudget(cfg, s, step);
    ThisWindow(cfg, s);
    ThisWindow(cfg, n);
    forall t: nat | t <= n.now ensures Sum(Within(cfg.window, t), n.ledger) <= Budget(cfg) {
      if t < s.now {
        PastWindow(cfg, s, step, cfg.window, t);
      } else if t < n.now {
        WithinFades(s.ledger, cfg.window, s.now, t);
      }
    }
  }

  lemma {:induction false} RunStaysWithinBudget(cfg: Config, s: System, steps: seq<Step>)
    requires cfg.window > 0 && Guarded(cfg) && Kept(cfg, s) && WithinBudget(cfg, s) && AllWindows(cfg, s)
    requires Run(cfg, s, steps).Some?
    ensures var n := Run(cfg, s, steps).value; Kept(cfg, n) && WithinBudget(cfg, n) && AllWindows(cfg, n)
    decreases |steps|
  {
    if steps != [] {
      NextKeeps(cfg, s, steps[0]);
      NextStaysWithinBudget(cfg, s, steps[0]);
      NextKeepsWindows(cfg, s, steps[0]);
      RunStaysWithinBudget(cfg, Next(cfg, s, steps[0]).value, steps[1..]);
    }
  }

  lemma {:induction false} ReachableWithinBudget(cfg: Config, s: System)
    requires cfg.window > 0 && cfg.span > 0 && Guarded(cfg) && Reachable(cfg, s)
    ensures Kept(cfg, s) && WithinBudget(cfg, s) && AllWindows(cfg, s)
  {
    var steps :| Run(cfg, Start(cfg), steps) == Some(s);
    RunStaysWithinBudget(cfg, Start(cfg), steps);
  }

  lemma {:induction false} WindowsCover(span: nat, window: nat)
    requires window > 0 && span > 0
    ensures (span + window - 1) / window >= 1 && span <= (span + window - 1) / window * window
  {
    var n := (span + window - 1) / window;
    assert span + window - 1 == n * window + (span + window - 1) % window;
  }

  // ----- safety -----

  /** Whatever is still unanswered could cost its worst case without the server refusing. */
  lemma {:induction false} NoOverdraw(cfg: Config, s: System)
    requires cfg.window > 0 && cfg.span > 0 && Guarded(cfg) && Reachable(cfg, s)
    ensures Spent(cfg, s, s.now) <= cfg.limit
    ensures Live(s.bucket.spends, cfg.window, s.now) + Sum(Unrecorded, s.ledger) <= Budget(cfg) <= cfg.limit
  {
    ReachableWithinBudget(cfg, s);
    ThisWindow(cfg, s);
    if cfg.delivery.DelayedWithoutFigure? {
      WindowsCover(cfg.span, cfg.window);
      WindowsInARow(s.ledger, cfg.window, Burst(cfg), Windows(cfg), s.now);
      ShorterWindow(s.ledger, cfg.span, Windows(cfg) * cfg.window, s.now);
      WindowEndingNow(s.ledger, cfg.span, s.now);
    } else {
      ShorterWindow(s.ledger, cfg.span, cfg.window, s.now);
    }
  }

  /** Prompt delivery: the settled estimate never exceeds what the server has
      left, now and at every later instant, and is the same if limits and windows
      are; and what the server has left covers every unanswered reservation. */
  lemma {:induction false} EstimateMirrorsServer(cfg: Config, s: System, t: nat)
    requires cfg.window > 0 && cfg.span > 0 && Guarded(cfg) && cfg.delivery.Prompt? && Reachable(cfg, s) && t >= s.now
    ensures Base(Settled(s.bucket, t)) <= Remaining(cfg, s, t)
    ensures Mirrors(cfg) ==> Base(Settled(s.bucket, t)) == Remaining(cfg, s, t)
    ensures Sum(Unrecorded, s.ledger) <= Remaining(cfg, s, t)
  {
    ReachableWithinBudget(cfg, s);
    PromptCount(cfg, s, t);
    SettledInClosedForm(s.bucket, s.now, t);
    LiveBounds(s.bucket.spends, cfg.window, s.now, t);
    LiveBounds(s.bucket.spends, cfg.window, t, t);
  }

  /** A configuration that is not safe, and a run that shows it. */
  lemma {:induction false} Overdraw(cfg: Config) returns (steps: seq<Step>)
    requires cfg.window >= SECOND && cfg.span >= SECOND && !Guarded(cfg)
    ensures Run(cfg, Start(cfg), steps).Some?
    ensures Spent(cfg, Run(cfg, Start(cfg), steps).value, Run(cfg, Start(cfg), steps).value.now) > cfg.limit
  {
    if cfg.lossy {
      steps := OverdrawByLoss(cfg, Start(cfg), cfg.limit + 1);
    } else if cfg.unmapped {
      steps := OverdrawUnmapped(cfg, Start(cfg), cfg.limit + 1);
    } else if cfg.shared {
      steps := OverdrawShared(cfg);
    } else if cfg.maxTokens == 0 {
      steps := SpendFreely(cfg, Start(cfg), cfg.limit + 1);
    } else if cfg.delivery.DelayedWithoutFigure? || cfg.limit < Burst(cfg) {
      WindowsCover(cfg.span, cfg.window);
      steps := OverdrawByBursts(cfg);
    } else {
      steps := OverdrawByFigures(cfg);
    }
  }

  lemma {:induction false} OverdrawByFigures(cfg: Config) returns (steps: seq<Step>)
    requires cfg.window >= SECOND && cfg.span >= SECOND && !cfg.delivery.DelayedWithoutFigure? && cfg.maxTokens > 0
    requires !OneWorstCase(cfg) && !(cfg.delivery.Prompt? && SameWindow(cfg)) && Burst(cfg) <= cfg.limit
    ensures Run(cfg, Start(cfg), steps).Some?
    ensures Spent(cfg, Run(cfg, Start(cfg), steps).value, Run(cfg, Start(cfg), steps).value.now) > cfg.limit
  {
    if cfg.maxTokens < MAX_REQUEST_COST {
      steps := OverdrawSmallBucket(cfg);
    } else if cfg.span > cfg.window {
      steps := OverdrawLongerSpan(cfg);
    } else if cfg.span < cfg.window {
      steps := OverdrawShorterSpan(cfg);
    } else {
      steps := OverdrawWithDelay(cfg);
    }
  }

  /** A group's budget is safe in every run exactly when nobody else spends from
      it, every charge is recorded in full, every request has a reservation, and:
      without the server's figures, the bucket has a token and the bursts that can
      begin within the server's window fit the server's limit; with figures recorded as
      they are made, the bucket's tokens cover a worst case and fit the limit, and
      the windows are the same; with late figures, or another window, tokens and
      limit are both just one worst case and the server's window is no longer. */
  lemma {:induction false} NeverOverdrawsExactly(cfg: Config)
    requires cfg.window >= SECOND && cfg.span >= SECOND
    ensures NeverOverdraws(cfg) <==> Guarded(cfg)
  {
    if Guarded(cfg) {
      forall s | Reachable(cfg, s) ensures Spent(cfg, s, s.now) <= cfg.limit {
        NoOverdraw(cfg, s);
      }
    } else {
      var steps := Overdraw(cfg);
      assert Reachable(cfg, Run(cfg, Start(cfg), steps).value);
    }
  }
}
