/** All the buckets of one client, on values, and every run of them. */
module LimiterModel {
  import opened Prelude
  import opened Text
  import opened LimitHeader
  import opened BucketModel

  /** The limit the specification declares for an operation. */
  datatype SpecLimit = SpecLimit(group: string, maxTokens: nat, windowSecs: nat)

  type SpecTable = map<string, SpecLimit>

  /** `learned`: groups that responses reported and the specification does not. */
  datatype LimiterState = LimiterState(buckets: map<string, BucketState>, learned: map<string, string>)

  datatype Reservation = Reservation(group: Option<string>, tokens: nat)

  datatype RateHeaders = RateHeaders(
    status: nat,
    group: Option<string>,
    limit: Option<string>,
    remaining: Option<string>,
    used: Option<string>,
    retryAfter: Option<string>)

  datatype PollResult = Unlimited | Admitted(reservation: Reservation) | Wait(ready: nat)

  /** What a poll that let a request through handed out. */
  function Granted(result: PollResult): Reservation {
    if result.Admitted? then result.reservation else Reservation(None, 0)
  }

  // ----- reading headers -----

  /** No limit header that parses has an empty window. */
  type Window = w: nat | w > 0 witness 1

  /** What a response's headers say once read; `hold` is set by a 429. */
  datatype Figures = Figures(
    group: Option<string>,
    limit: Option<(nat, Window)>,
    remaining: Option<nat>,
    used: Option<nat>,
    hold: Option<nat>)

  function Number(value: Option<string>, bound: nat): Option<nat> {
    if value.None? then None else ParseUnsigned(Trim(value.value), bound)
  }

  function Limit(value: Option<string>): Option<(nat, Window)> {
    if value.None? then None else
    var parsed := ParseLimit(Trim(value.value));
    if parsed.None? then None else Some((parsed.value.0, parsed.value.1 * SECOND))
  }

  function Read(h: RateHeaders): Figures {
    var retryAfter := Number(h.retryAfter, U64_BOUND);
    Figures(
      if h.group.Some? && Trim(h.group.value) != "" then Some(Trim(h.group.value)) else None,
      Limit(h.limit),
      Number(h.remaining, U32_BOUND),
      Number(h.used, U32_BOUND),
      if h.status != 429 then None
      else if retryAfter.Some? then Some(retryAfter.value * SECOND) else Some(DEFAULT_RETRY_AFTER))
  }

  /** Whether a response says anything about rate limits at all. */
  predicate Relevant(f: Figures) {
    f.limit.Some? || f.remaining.Some? || f.used.Some? || f.hold.Some?
  }

  // ----- operations -----

  /** The group governing an operation; reported groups win over the specification's. */
  function GroupOf(st: LimiterState, spec: SpecTable, op: string): Option<string> {
    if op in st.learned then Some(st.learned[op])
    else if op in spec then Some(spec[op].group)
    else None
  }

  function FromSpec(l: SpecLimit): BucketState {
    Fresh(l.maxTokens, l.windowSecs * SECOND)
  }

  /** The state with the operation's bucket created on first use, and its group. */
  function BucketFor(st: LimiterState, spec: SpecTable, op: string): (LimiterState, Option<string>) {
    var group := GroupOf(st, spec, op);
    if group.None? then (st, None)
    else if group.value in st.buckets then (st, group)
    else if op in spec then (st.(buckets := st.buckets[group.value := FromSpec(spec[op])]), group)
    else (st, None)
  }

  /** Settle a group's bucket, then reserve from it or say when to come back. */
  function PollBucket(st: LimiterState, group: string, now: nat): (LimiterState, PollResult)
    requires group in st.buckets
  {
    var b := Settled(st.buckets[group], now);
    var ready := ReadyAt(b, now);
    if ready <= now
    then (st.(buckets := st.buckets[group := b.(inFlight := b.inFlight + ReservationCost(b))]),
          Admitted(Reservation(Some(group), ReservationCost(b))))
    else (st.(buckets := st.buckets[group := b]), Wait(ready))
  }

  /** One round of `acquire`. */
  function Poll(st: LimiterState, spec: SpecTable, op: string, now: nat): (LimiterState, PollResult) {
    var (found, group) := BucketFor(st, spec, op);
    if group.None? || group.value !in found.buckets then (found, Unlimited) else PollBucket(found, group.value, now)
  }

  function LearnedFrom(st: LimiterState, spec: SpecTable, op: string, f: Figures): map<string, string> {
    if f.group.Some? && (op in spec ==> spec[op].group != f.group.value)
    then st.learned[op := f.group.value] else st.learned
  }

  /** The group a response's figures belong to. */
  function RecordGroup(st: LimiterState, spec: SpecTable, op: string, f: Figures): Option<string> {
    if f.group.Some? then f.group else GroupOf(st, spec, op)
  }

  /** A new bucket for a group that has none. */
  function Vacant(spec: SpecTable, op: string, limit: Option<(nat, nat)>): Option<BucketState> {
    if limit.Some? then Some(Fresh(limit.value.0, limit.value.1))
    else if op in spec then Some(FromSpec(spec[op]))
    else None
  }

  /** The bucket that takes a response's figures, if there is or can be one. */
  function RecordBucket(st: LimiterState, spec: SpecTable, op: string, f: Figures): Option<BucketState> {
    var group := RecordGroup(st, spec, op, f);
    if group.None? then None
    else if group.value in st.buckets then Some(st.buckets[group.value])
    else Vacant(spec, op, f.limit)
  }

  function Ingest(b: BucketState, f: Figures, now: nat): BucketState {
    Recorded(b, f.limit, f.used, f.remaining, f.hold, now)
  }

  function RecordResponse(st: LimiterState, spec: SpecTable, op: string, f: Figures, now: nat): LimiterState {
    if !Relevant(f) then st else
    var learned := LearnedFrom(st, spec, op, f);
    var bucket := RecordBucket(st, spec, op, f);
    if bucket.None? then st.(learned := learned)
    else LimiterState(st.buckets[RecordGroup(st, spec, op, f).value := Ingest(bucket.value, f, now)], learned)
  }

  /** A limit a response brings governs its group from then on, with or without other
      figures, and if the group had no bucket it now has one. */
  lemma {:induction false} LimitGoverns(st: LimiterState, spec: SpecTable, op: string, f: Figures, now: nat,
                                        group: string)
    requires f.limit.Some? && RecordGroup(st, spec, op, f) == Some(group)
    ensures var buckets := RecordResponse(st, spec, op, f, now).buckets;
            group in buckets && (buckets[group].maxTokens, buckets[group].window) == f.limit.value
  {
    var b := if group in st.buckets then st.buckets[group] else Fresh(f.limit.value.0, f.limit.value.1);
    RecordedShape(b, f.limit, f.used, f.remaining, f.hold, now);
    ReleaseForgets(DropStale(LiftHold(b.(maxTokens := f.limit.value.0, window := f.limit.value.1), now), now),
                   None, now);
  }

  /** Recording as three updates: learn the group, give it a bucket, ingest. */
  lemma {:induction false} RecordInSteps(st: LimiterState, spec: SpecTable, op: string, f: Figures, now: nat,
                                         occupied: LimiterState)
    requires Relevant(f) && RecordGroup(st, spec, op, f).Some?
    requires occupied.learned == LearnedFrom(st, spec, op, f)
    requires var g := RecordGroup(st, spec, op, f).value;
             occupied.buckets == if g in st.buckets || Vacant(spec, op, f.limit).None? then st.buckets
                                 else st.buckets[g := Vacant(spec, op, f.limit).value]
    ensures var g := RecordGroup(st, spec, op, f).value;
            RecordResponse(st, spec, op, f, now) ==
              if g in occupied.buckets
              then occupied.(buckets := occupied.buckets[g := Ingest(occupied.buckets[g], f, now)]) else occupied
  {
    var g := RecordGroup(st, spec, op, f).value;
    assert forall a, b {:trigger st.buckets[g := a][g := b]} :: st.buckets[g := a][g := b] == st.buckets[g := b];
  }

  function GiveBack(st: LimiterState, r: Reservation): LimiterState {
    if r.group.Some? && r.group.value in st.buckets then
      var b := st.buckets[r.group.value];
      st.(buckets := st.buckets[r.group.value := b.(inFlight := Monus(b.inFlight, r.tokens))])
    else st
  }

  function SettleAll(st: LimiterState, now: nat): LimiterState {
    st.(buckets := map g | g in st.buckets :: Settled(st.buckets[g], now))
  }

  // ----- runs -----

  /** `live`: the reservations handed out and not yet given back. */
  datatype Machine = Machine(now: nat, limiter: LimiterState, live: seq<Reservation>)

  datatype Step =
    | Tick(elapsed: nat)
    | Request(op: string)
    | Response(op: string, f: Figures)
    | Release(i: nat)
    | Budgets

  function Next(spec: SpecTable, m: Machine, step: Step): Machine {
    match step
    case Tick(elapsed) => m.(now := m.now + elapsed)
    case Request(op) =>
      var (st, result) := Poll(m.limiter, spec, op, m.now);
      m.(limiter := st, live := if result.Admitted? then m.live + [result.reservation] else m.live)
    case Response(op, f) => m.(limiter := RecordResponse(m.limiter, spec, op, f, m.now))
    case Release(i) =>
      if i < |m.live|
      then m.(limiter := GiveBack(m.limiter, m.live[i]), live := m.live[..i] + m.live[i + 1..]) else m
    case Budgets => m.(limiter := SettleAll(m.limiter, m.now))
  }

  function Run(spec: SpecTable, m: Machine, steps: seq<Step>): Machine
    decreases |steps|
  {
    if steps == [] then m else Run(spec, Next(spec, m, steps[0]), steps[1..])
  }

  function Outstanding(live: seq<Reservation>, group: string): nat {
    if live == [] then 0
    else (if live[0].group == Some(group) then live[0].tokens else 0) + Outstanding(live[1..], group)
  }

  ghost predicate Positive(spec: SpecTable) {
    forall op :: op in spec ==> spec[op].windowSecs > 0
  }

  /** Each bucket is well formed, its window positive, and its `inFlight` exactly
      the tokens of the group's live reservations. */
  ghost predicate Sound(m: Machine) {
    && (forall g :: g in m.limiter.buckets ==>
          && WellFormed(m.limiter.buckets[g], m.now)
          && m.limiter.buckets[g].window > 0)
    && (forall g :: g in m.limiter.buckets ==> m.limiter.buckets[g].inFlight == Outstanding(m.live, g))
    && (forall r :: r in m.live && r.group.Some? ==> r.group.value in m.limiter.buckets)
  }

  lemma {:induction false} OutstandingSplits(before: seq<Reservation>, after: seq<Reservation>, group: string)
    ensures Outstanding(before + after, group) == Outstanding(before, group) + Outstanding(after, group)
  {
    if before == [] {
      assert before + after == after;
    } else {
      assert (before + after)[1..] == before[1..] + after;
      OutstandingSplits(before[1..], after, group);
    }
  }

  lemma {:induction false} OutstandingNowhere(live: seq<Reservation>, group: string)
    requires forall r :: r in live ==> r.group != Some(group)
    ensures Outstanding(live, group) == 0
  {
    if live != [] {
      assert live[0] in live;
      OutstandingNowhere(live[1..], group);
    }
  }

  lemma {:induction false} FoundStaysSound(spec: SpecTable, m: Machine, op: string)
    requires Positive(spec) && Sound(m)
    ensures Sound(m.(limiter := BucketFor(m.limiter, spec, op).0))
  {
    var group := GroupOf(m.limiter, spec, op);
    if group.Some? && group.value !in m.limiter.buckets {
      OutstandingNowhere(m.live, group.value);
    }
  }

  lemma {:induction false} ReserveStaysSound(m: Machine, group: string)
    requires Sound(m) && group in m.limiter.buckets
    ensures var (st, result) := PollBucket(m.limiter, group, m.now);
            Sound(m.(limiter := st, live := if result.Admitted? then m.live + [result.reservation] else m.live))
  {
    var result := PollBucket(m.limiter, group, m.now).1;
    SettledIsWellFormed(m.limiter.buckets[group], m.now);
    if result.Admitted? {
      forall x ensures Outstanding(m.live + [result.reservation], x)
                    == Outstanding(m.live, x) + if x == group then result.reservation.tokens else 0 {
        OutstandingSplits(m.live, [result.reservation], x);
      }
    }
  }

  lemma {:induction false} RequestStaysSound(spec: SpecTable, m: Machine, op: string)
    requires Positive(spec) && Sound(m)
    ensures Sound(Next(spec, m, Request(op)))
  {
    FoundStaysSound(spec, m, op);
    var (found, group) := BucketFor(m.limiter, spec, op);
    if group.Some? {
      ReserveStaysSound(m.(limiter := found), group.value);
    }
  }

  lemma {:induction false} ResponseStaysSound(spec: SpecTable, m: Machine, op: string, f: Figures)
    requires Positive(spec) && Sound(m)
    ensures Sound(m.(limiter := RecordResponse(m.limiter, spec, op, f, m.now)))
  {
    var bucket := RecordBucket(m.limiter, spec, op, f);
    if Relevant(f) && bucket.Some? {
      var g := RecordGroup(m.limiter, spec, op, f).value;
      if g !in m.limiter.buckets {
        OutstandingNowhere(m.live, g);
      }
      RecordedIsWellFormed(bucket.value, f.limit, f.used, f.remaining, f.hold, m.now);
    }
  }

  /** Giving a reservation back takes exactly its tokens out of flight: the
      saturating subtraction never saturates. */
  lemma {:induction false} ReleaseStaysSound(spec: SpecTable, m: Machine, i: nat)
    requires Sound(m) && i < |m.live|
    ensures Sound(Next(spec, m, Release(i)))
    ensures m.live[i].group.Some? ==>
              && m.live[i].group.value in m.limiter.buckets
              && m.limiter.buckets[m.live[i].group.value].inFlight >= m.live[i].tokens
  {
    var n := Next(spec, m, Release(i));
    var r := m.live[i];
    assert r in m.live;
    forall x ensures Outstanding(n.live, x) + (if r.group == Some(x) then r.tokens else 0) == Outstanding(m.live, x) {
      assert m.live == m.live[..i] + ([r] + m.live[i + 1..]);
      OutstandingSplits(m.live[..i], [r] + m.live[i + 1..], x);
      OutstandingSplits([r], m.live[i + 1..], x);
      OutstandingSplits(m.live[..i], m.live[i + 1..], x);
    }
  }

  lemma {:induction false} NextStaysSound(spec: SpecTable, m: Machine, step: Step)
    requires Positive(spec) && Sound(m)
    ensures Sound(Next(spec, m, step))
  {
    match step
    case Tick(elapsed) =>
    case Request(op) => RequestStaysSound(spec, m, op);
    case Response(op, f) => ResponseStaysSound(spec, m, op, f);
    case Release(i) => if i < |m.live| { ReleaseStaysSound(spec, m, i); }
    case Budgets =>
      forall g | g in m.limiter.buckets {
        SettledIsWellFormed(m.limiter.buckets[g], m.now);
      }
  }

  /** Every reachable state of every run is sound, whatever the responses say:
      reservations are conserved even while groups are learned and limits change. */
  lemma {:induction false} RunStaysSound(spec: SpecTable, m: Machine, steps: seq<Step>)
    requires Positive(spec) && Sound(m)
    ensures Sound(Run(spec, m, steps))
    decreases |steps|
  {
    if steps != [] {
      NextStaysSound(spec, m, steps[0]);
      RunStaysSound(spec, Next(spec, m, steps[0]), steps[1..]);
    }
  }

  // ----- which group governs an operation -----

  /** A response to the operation that names a group. */
  predicate Names(op: string, step: Step) {
    && step.Response? && step.op == op && step.f.group.Some?
    && (step.f.limit.Some? || step.f.remaining.Some? || step.f.used.Some? || step.f.hold.Some?)
  }

  /** One that names a group the specification does not have for the operation. */
  predicate NamesForeign(spec: SpecTable, op: string, step: Step) {
    Names(op, step) && (op in spec ==> spec[op].group != step.f.group.value)
  }

  function LastNamed(op: string, steps: seq<Step>): Option<string> {
    if steps == [] then None
    else var later := LastNamed(op, steps[1..]);
         if later.None? && Names(op, steps[0]) then steps[0].f.group else later
  }

  function LastForeign(spec: SpecTable, op: string, steps: seq<Step>): Option<string> {
    if steps == [] then None
    else var later := LastForeign(spec, op, steps[1..]);
         if later.None? && NamesForeign(spec, op, steps[0]) then steps[0].f.group else later
  }

  lemma {:induction false} NextGroup(spec: SpecTable, m: Machine, step: Step, op: string)
    ensures GroupOf(Next(spec, m, step).limiter, spec, op) ==
              if NamesForeign(spec, op, step) then step.f.group else GroupOf(m.limiter, spec, op)
  {
  }

  /** After any run an operation is governed by the last group reported for it
      that the specification does not have for it, if there was one. */
  lemma {:induction false} GroupAfterRun(spec: SpecTable, m: Machine, steps: seq<Step>, op: string)
    ensures var foreign := LastForeign(spec, op, steps);
            GroupOf(Run(spec, m, steps).limiter, spec, op)
            == if foreign.Some? then foreign else GroupOf(m.limiter, spec, op)
    decreases |steps|
  {
    if steps != [] {
      NextGroup(spec, m, steps[0], op);
      GroupAfterRun(spec, Next(spec, m, steps[0]), steps[1..], op);
    }
  }

  /** A response that names no group is counted where its request was reserved,
      unless the operation was meanwhile reported to be in another. */
  lemma {:induction false} CountedWhereReserved(spec: SpecTable, m: Machine, op: string, meanwhile: seq<Step>,
                                                f: Figures)
    requires Poll(m.limiter, spec, op, m.now).1.Admitted? && f.group.None?
    requires LastForeign(spec, op, meanwhile).None?
    ensures var n := Run(spec, Next(spec, m, Request(op)), meanwhile);
            RecordGroup(n.limiter, spec, op, f) == Poll(m.limiter, spec, op, m.now).1.reservation.group
  {
    NextGroup(spec, m, Request(op), op);
    GroupAfterRun(spec, Next(spec, m, Request(op)), meanwhile, op);
  }

  lemma {:induction false} LastNamedOrForeign(spec: SpecTable, op: string, steps: seq<Step>)
    ensures LastNamed(op, steps).None? ==> LastForeign(spec, op, steps).None?
    ensures var last := LastNamed(op, steps);
            last.Some? && (op in spec ==> spec[op].group != last.value) ==> LastForeign(spec, op, steps) == last
    ensures LastForeign(spec, op, steps).Some? && op in spec ==> LastForeign(spec, op, steps).value != spec[op].group
  {
    if steps != [] {
      LastNamedOrForeign(spec, op, steps[1..]);
    }
  }

  /** A request is counted in the group its operation reported last if and only if
      the specification has another, or none but its own was ever reported. */
  lemma {:induction false} LastReportGovernsExactly(spec: SpecTable, now: nat, steps: seq<Step>, op: string)
    requires LastNamed(op, steps).Some?
    ensures var m := Run(spec, Machine(now, LimiterState(map[], map[]), []), steps);
            GroupOf(m.limiter, spec, op) == LastNamed(op, steps) <==>
              (op in spec ==> spec[op].group != LastNamed(op, steps).value) || LastForeign(spec, op, steps).None?
  {
    GroupAfterRun(spec, Machine(now, LimiterState(map[], map[]), []), steps, op);
    LastNamedOrForeign(spec, op, steps);
    if op in spec && spec[op].group == LastNamed(op, steps).value {
      assert GroupOf(LimiterState(map[], map[]), spec, op) == LastNamed(op, steps);
    }
  }

  /** Two responses, the second back in the specification's group: the next
      request is still reserved in the other one. */
  lemma {:induction false} OldGroupKept(spec: SpecTable, op: string, other: string, maxTokens: nat, window: Window,
                                        used: nat)
    requires op in spec && spec[op].group != other
    requires used <= MAX_REQUEST_COST && maxTokens >= 2 * MAX_REQUEST_COST
    ensures var away := Response(op, Figures(Some(other), Some((maxTokens, window)), None, Some(used), None));
            var back := Response(op, Figures(Some(spec[op].group), None, None, Some(used), None));
            var m := Run(spec, Machine(0, LimiterState(map[], map[]), []), [away, back]);
            && LastNamed(op, [away, back]) == Some(spec[op].group)
            && Poll(m.limiter, spec, op, m.now).1 == Admitted(Reservation(Some(other), MAX_REQUEST_COST))
  {
    var away := Response(op, Figures(Some(other), Some((maxTokens, window)), None, Some(used), None));
    var back := Response(op, Figures(Some(spec[op].group), None, None, Some(used), None));
    var m0 := Machine(0, LimiterState(map[], map[]), []);
    var m1 := Next(spec, m0, away);
    var m2 := Next(spec, m1, back);
    var b := Fresh(maxTokens, window).(spends := if used > 0 then [Spend(0, used)] else []);
    assert [away, back][1..] == [back] && [back][1..] == [];
    assert LastNamed(op, [back]) == Some(spec[op].group);
    assert Run(spec, m1, [back]) == m2;
    FirstFigures(maxTokens, window, used, Some(other));
    assert m1.limiter.buckets[other] == b && m1.limiter.learned[op] == other;
    assert m2.limiter.buckets[other] == b && m2.limiter.learned[op] == other;
    assert Settled(b, 0) == b && Total(b.spends) == used;
  }

  lemma {:induction false} FirstFigures(maxTokens: nat, window: Window, used: nat, group: Option<string>)
    ensures Ingest(Fresh(maxTokens, window), Figures(group, Some((maxTokens, window)), None, Some(used), None), 0)
         == Fresh(maxTokens, window).(spends := if used > 0 then [Spend(0, used)] else [])
  {
    assert Settled(Fresh(maxTokens, window), 0) == Fresh(maxTokens, window);
  }

  // ----- holds -----

  ghost predicate HeldUntil(m: Machine, group: string, until: nat) {
    && group in m.limiter.buckets
    && (m.now < until ==> HoldsUntil(m.limiter.buckets[group], until))
  }

  predicate HoldsUntil(b: BucketState, until: nat) {
    b.blockedUntil.Some? && b.blockedUntil.value >= until
  }

  lemma {:induction false} SettledKeepsHold(b: BucketState, now: nat, until: nat)
    requires HoldsUntil(b, until) && now < until
    ensures HoldsUntil(Settled(b, now), until) && !Admits(b, now)
  {
    ReleaseForgets(DropStale(LiftHold(b, now), now), None, now);
  }

  lemma {:induction false} IngestKeepsHold(b: BucketState, f: Figures, now: nat, until: nat)
    ensures HoldsUntil(b, until) && now < until ==> HoldsUntil(Ingest(b, f, now), until)
    ensures f.hold.Some? ==> HoldsUntil(Ingest(b, f, now), now + f.hold.value)
  {
    if HoldsUntil(b, until) && now < until {
      var limited := if f.limit.Some? then b.(maxTokens := f.limit.value.0, window := f.limit.value.1) else b;
      SettledKeepsHold(limited, now, until);
    }
    RecordedShape(b, f.limit, f.used, f.remaining, f.hold, now);
  }

  lemma {:induction false} NextKeepsHold(spec: SpecTable, m: Machine, step: Step, group: string, until: nat)
    requires HeldUntil(m, group, until)
    ensures HeldUntil(Next(spec, m, step), group, until)
    ensures step.Request? && m.now < until && Poll(m.limiter, spec, step.op, m.now).1.Admitted? ==>
              Poll(m.limiter, spec, step.op, m.now).1.reservation.group != Some(group)
  {
    if m.now < until {
      SettledKeepsHold(m.limiter.buckets[group], m.now, until);
      if step.Response? {
        IngestKeepsHold(m.limiter.buckets[group], step.f, m.now, until);
      }
    }
  }

  lemma {:induction false} RunKeepsHold(spec: SpecTable, m: Machine, steps: seq<Step>, group: string, until: nat)
    requires HeldUntil(m, group, until)
    ensures HeldUntil(Run(spec, m, steps), group, until)
    decreases |steps|
  {
    if steps != [] {
      NextKeepsHold(spec, m, steps[0], group, until);
      RunKeepsHold(spec, Next(spec, m, steps[0]), steps[1..], group, until);
    }
  }

  /** A 429 keeps its group shut for all of its delay, whatever else is
      recorded, requested, released or listed in the meantime. */
  lemma {:induction false} HoldIsHonoured(spec: SpecTable, m: Machine, op: string, h: RateHeaders,
                                          meanwhile: seq<Step>, later: string)
    requires h.status == 429 && RecordBucket(m.limiter, spec, op, Read(h)).Some?
    ensures var n := Run(spec, Next(spec, m, Response(op, Read(h))), meanwhile);
            var result := Poll(n.limiter, spec, later, n.now).1;
            result.Admitted? && result.reservation.group == RecordGroup(m.limiter, spec, op, Read(h)) ==>
              n.now >= m.now + Read(h).hold.value
  {
    var f := Read(h);
    var g := RecordGroup(m.limiter, spec, op, f).value;
    var n := Next(spec, m, Response(op, Read(h)));
    IngestKeepsHold(RecordBucket(m.limiter, spec, op, f).value, f, m.now, m.now + f.hold.value);
    RunKeepsHold(spec, n, meanwhile, g, m.now + f.hold.value);
    NextKeepsHold(spec, Run(spec, n, meanwhile), Request(later), g, m.now + f.hold.value);
  }

  /** After the response what is not spent within the window, or reserved, covers a worst case. */
  predicate CoversAfter(b: BucketState, f: Figures, now: nat, t: nat) {
    var (max, window) := if f.limit.Some? then f.limit.value else (b.maxTokens, b.window);
    var used := if f.used.Some? && now + window > t then f.used.value else 0;
    Monus(Monus(max, Live(b.spends, window, t) + used), b.inFlight) >= Min(5, max)
  }

  /** The response holds its group's bucket until `t` or less, and `later` goes there. */
  ghost predicate HoldsTill(spec: SpecTable, m: Machine, op: string, f: Figures, later: string, t: nat) {
    && f.hold.Some? && t >= m.now + f.hold.value && RecordBucket(m.limiter, spec, op, f).Some?
    && (var b := RecordBucket(m.limiter, spec, op, f).value;
        WellFormed(b, m.now) && (b.blockedUntil.Some? ==> t >= b.blockedUntil.value))
    && GroupOf(Next(spec, m, Response(op, f)).limiter, spec, later) == RecordGroup(m.limiter, spec, op, f)
  }

  /** And no longer: with nothing else heard, a request is let in from the end of the
      delay on exactly when the tokens not spent within the window, or reserved,
      cover a worst case; the figure that came with the 429 no longer counts. */
  lemma {:induction false} HoldIsLifted(spec: SpecTable, m: Machine, op: string, f: Figures, later: string, t: nat)
    requires HoldsTill(spec, m, op, f, later, t)
    ensures Poll(Next(spec, m, Response(op, f)).limiter, spec, later, t).1.Admitted? <==>
              CoversAfter(RecordBucket(m.limiter, spec, op, f).value, f, m.now, t)
  {
    var b := RecordBucket(m.limiter, spec, op, f).value;
    var n := Next(spec, m, Response(op, f));
    RoomAfterHold(b, f, m.now, t);
    PollAdmits(n.limiter, spec, later, RecordGroup(m.limiter, spec, op, f).value, t);
  }

  lemma {:induction false} PollAdmits(st: LimiterState, spec: SpecTable, op: string, group: string, t: nat)
    requires GroupOf(st, spec, op) == Some(group) && group in st.buckets
    ensures Poll(st, spec, op, t).1.Admitted? <==> Admits(st.buckets[group], t)
  {
  }

  lemma {:induction false} RoomAfterHold(b: BucketState, f: Figures, now: nat, t: nat)
    requires WellFormed(b, now) && f.hold.Some? && t >= now + f.hold.value
    requires b.blockedUntil.Some? ==> t >= b.blockedUntil.value
    ensures Admits(Ingest(b, f, now), t) <==> CoversAfter(b, f, now, t)
  {
    RecordedIsWellFormed(b, f.limit, f.used, f.remaining, f.hold, now);
    RecordedShape(b, f.limit, f.used, f.remaining, f.hold, now);
    RecordedSpends(b, f.limit, f.used, f.remaining, f.hold, now, t);
    StaysFree(b, f, now, t);
    HoldEnded(Ingest(b, f, now), now, t);
  }

  predicate FreeBy(b: BucketState, until: nat) {
    b.blockedUntil.Some? ==> b.blockedUntil.value <= until
  }

  /** Settling holds nothing back, and a response no longer than its own delay. */
  lemma {:induction false} StaysFree(b: BucketState, f: Figures, now: nat, until: nat)
    requires FreeBy(b, until)
    ensures FreeBy(Settled(b, now), until)
    ensures (f.hold.Some? ==> now + f.hold.value <= until) ==> FreeBy(Ingest(b, f, now), until)
  {
    ReleaseForgets(DropStale(LiftHold(b, now), now), None, now);
    RecordedShape(b, f.limit, f.used, f.remaining, f.hold, now);
    var limited := if f.limit.Some? then b.(maxTokens := f.limit.value.0, window := f.limit.value.1) else b;
    ReleaseForgets(DropStale(LiftHold(limited, now), now), None, now);
    var r := Ingest(b, f, now);
    assert r.blockedUntil.Some? && r.blockedUntil.value > 0 ==> IsHeld(r, r.blockedUntil.value - 1);
  }

  predicate FreeFrom(m: Machine, group: string, until: nat) {
    group in m.limiter.buckets ==> FreeBy(m.limiter.buckets[group], until)
  }

  /** No response of the group asks for a delay that ends after `until`. */
  predicate NoLongerDelay(spec: SpecTable, m: Machine, steps: seq<Step>, group: string, until: nat)
    decreases |steps|
  {
    steps != [] ==>
      && (steps[0].Response? && steps[0].f.hold.Some?
          && RecordGroup(m.limiter, spec, steps[0].op, steps[0].f) == Some(group) ==>
            m.now + steps[0].f.hold.value <= until)
      && NoLongerDelay(spec, Next(spec, m, steps[0]), steps[1..], group, until)
  }

  lemma {:induction false} NextStaysFree(spec: SpecTable, m: Machine, step: Step, group: string, until: nat)
    requires FreeFrom(m, group, until) && NoLongerDelay(spec, m, [step], group, until)
    ensures FreeFrom(Next(spec, m, step), group, until)
  {
    var f := if step.Response? then step.f else Figures(None, None, None, None, None);
    var op := match step case Response(op, _) => op case Request(op) => op case _ => "";
    var found := BucketFor(m.limiter, spec, op).0;
    if group in found.buckets {
      StaysFree(found.buckets[group], f, m.now, until);
    }
    var bucket := RecordBucket(m.limiter, spec, op, f);
    if step.Response? && bucket.Some? && RecordGroup(m.limiter, spec, op, f) == Some(group) {
      StaysFree(bucket.value, f, m.now, until);
    }
  }

  /** Whatever else happens, a group is held at no instant that none of its responses asked for. */
  lemma {:induction false} HoldsAreAskedFor(spec: SpecTable, m: Machine, steps: seq<Step>, group: string, until: nat)
    requires FreeFrom(m, group, until) && NoLongerDelay(spec, m, steps, group, until)
    ensures FreeFrom(Run(spec, m, steps), group, until)
    decreases |steps|
  {
    if steps != [] {
      assert [steps[0]][1..] == [];
      NextStaysFree(spec, m, steps[0], group, until);
      HoldsAreAskedFor(spec, Next(spec, m, steps[0]), steps[1..], group, until);
    }
  }

  // ----- one request's reservation -----

  lemma {:induction false} PollFlight(st: LimiterState, spec: SpecTable, op: string, now: nat, group: string)
    requires group in st.buckets
    ensures var (n, result) := Poll(st, spec, op, now);
            && group in n.buckets
            && n.buckets[group].inFlight
            == st.buckets[group].inFlight + if Granted(result).group == Some(group) then Granted(result).tokens else 0
  {
    ReleaseForgets(DropStale(LiftHold(st.buckets[group], now), now), None, now);
  }

  lemma {:induction false} RecordFlight(st: LimiterState, spec: SpecTable, op: string, f: Figures, now: nat,
                                        group: string)
    requires group in st.buckets
    ensures var n := RecordResponse(st, spec, op, f, now);
            group in n.buckets && n.buckets[group].inFlight == st.buckets[group].inFlight
  {
    var b := st.buckets[group];
    RecordedShape(b, f.limit, f.used, f.remaining, f.hold, now);
    var limited := if f.limit.Some? then b.(maxTokens := f.limit.value.0, window := f.limit.value.1) else b;
    ReleaseForgets(DropStale(LiftHold(limited, now), now), None, now);
  }
}
