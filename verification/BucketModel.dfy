/** The arithmetic of one rate-limit bucket, on values.

    The class in Bucket.dfy updates its fields step by step; the functions here
    say what each of its operations computes, and the lemmas say why that is
    the right thing to compute. Instants and durations count nanoseconds. */
module BucketModel {
  import opened Prelude

  const SECOND: nat := 1_000_000_000
  const MAX_REQUEST_COST: nat := 5
  const DEFAULT_RETRY_AFTER: nat := 60 * SECOND
  const MAX_POLL: nat := SECOND

  datatype Spend = Spend(at: nat, tokens: nat)

  datatype Observation = Observation(remaining: nat, at: nat)

  datatype BucketState = BucketState(
    maxTokens: nat,
    window: nat,
    observed: Option<Observation>,
    spends: seq<Spend>,
    inFlight: nat,
    blockedUntil: Option<nat>)

  function Fresh(maxTokens: nat, window: nat): BucketState {
    BucketState(maxTokens, window, None, [], 0, None)
  }

  function Total(spends: seq<Spend>): nat {
    if spends == [] then 0 else spends[0].tokens + Total(spends[1..])
  }

  // ----- settling -----

  function LiftHold(b: BucketState, now: nat): BucketState {
    if b.blockedUntil.Some? && now >= b.blockedUntil.value
    then b.(blockedUntil := None, observed := None) else b
  }

  function DropStale(b: BucketState, now: nat): BucketState {
    if b.observed.Some? && now >= b.observed.value.at + b.window
    then b.(observed := None) else b
  }

  /** A released spend is available again if the observation had deducted it. */
  function Credit(o: Option<Observation>, s: Spend, maxTokens: nat): Option<Observation> {
    if o.Some? && s.at <= o.value.at
    then Some(o.value.(remaining := Min(o.value.remaining + s.tokens, maxTokens))) else o
  }

  function Release(b: BucketState, now: nat): BucketState
    decreases |b.spends|
  {
    if b.spends == [] || b.spends[0].at + b.window > now then b
    else Release(b.(observed := Credit(b.observed, b.spends[0], b.maxTokens), spends := b.spends[1..]), now)
  }

  function Settled(b: BucketState, now: nat): BucketState {
    Release(DropStale(LiftHold(b, now), now), now)
  }

  // ----- admission -----

  /** What the bucket believes the server has left, before reservations. */
  function Base(b: BucketState): nat {
    if b.observed.Some? then b.observed.value.remaining else Monus(b.maxTokens, Total(b.spends))
  }

  function Available(b: BucketState): nat {
    Monus(Base(b), b.inFlight)
  }

  function ReservationCost(b: BucketState): nat {
    Min(MAX_REQUEST_COST, b.maxTokens)
  }

  predicate Deducted(o: Option<Observation>, s: Spend) {
    o.Some? ==> s.at <= o.value.at
  }

  /** When the first spend was made whose release lifts `available` to `needed`. */
  function FirstSufficient(spends: seq<Spend>, o: Option<Observation>, available: nat, needed: nat): Option<nat> {
    if spends == [] then None
    else if !Deducted(o, spends[0]) then FirstSufficient(spends[1..], o, available, needed)
    else if available + spends[0].tokens >= needed then Some(spends[0].at)
    else FirstSufficient(spends[1..], o, available + spends[0].tokens, needed)
  }

  function ReadyAt(b: BucketState, now: nat): nat {
    if b.blockedUntil.Some? then b.blockedUntil.value
    else if Available(b) >= ReservationCost(b) then now
    else
      var first := FirstSufficient(b.spends, b.observed, Available(b), ReservationCost(b));
      if first.Some? then first.value + b.window
      else if b.observed.Some? then b.observed.value.at + b.window
      else now + MAX_POLL
  }

  /** Whether a request asking at `now` is let through. */
  predicate Admits(b: BucketState, now: nat) {
    ReadyAt(Settled(b, now), now) <= now
  }

  // ----- recording a response -----

  function Recorded(b: BucketState, limit: Option<(nat, nat)>, used: Option<nat>, remaining: Option<nat>,
                    hold: Option<nat>, now: nat): BucketState
  {
    var limited := if limit.Some? then b.(maxTokens := limit.value.0, window := limit.value.1) else b;
    var settled := Settled(limited, now);
    var spent := if used.Some? && used.value > 0
                 then settled.(spends := settled.spends + [Spend(now, used.value)]) else settled;
    var seen := spent.(observed := if remaining.Some?
                                   then Some(Observation(Min(remaining.value, spent.maxTokens), now)) else None);
    if hold.Some?
    then seen.(blockedUntil := Some(if seen.blockedUntil.Some?
                                    then Max(seen.blockedUntil.value, now + hold.value) else now + hold.value))
    else seen
  }

  // ----- the invariant every operation keeps -----

  ghost predicate Sorted(spends: seq<Spend>) {
    forall i, j :: 0 <= i < j < |spends| ==> spends[i].at <= spends[j].at
  }

  /** No spend is newer than `at`. */
  ghost predicate NoneAfter(spends: seq<Spend>, at: nat) {
    forall s :: s in spends ==> s.at <= at
  }

  ghost predicate WellFormed(b: BucketState, now: nat) {
    && Sorted(b.spends)
    && NoneAfter(b.spends, now)
    && (b.observed.Some? ==>
          && b.observed.value.at <= now
          && b.observed.value.remaining <= b.maxTokens
          && NoneAfter(b.spends, b.observed.value.at))
  }

  /** Tokens of the spends whose window is still open at `t`. */
  function Live(spends: seq<Spend>, window: nat, t: nat): nat {
    if spends == [] then 0
    else (if spends[0].at + window > t then spends[0].tokens else 0) + Live(spends[1..], window, t)
  }

  /** Tokens of the spends whose window has closed by `t`. */
  function Expired(spends: seq<Spend>, window: nat, t: nat): nat {
    if spends == [] then 0
    else (if spends[0].at + window <= t then spends[0].tokens else 0) + Expired(spends[1..], window, t)
  }

  // ----- settling composes -----

  lemma {:induction false} ReleaseComposes(b: BucketState, t1: nat, t2: nat)
    requires t1 <= t2
    ensures Release(Release(b, t1), t2) == Release(b, t2)
    decreases |b.spends|
  {
    if b.spends == [] || b.spends[0].at + b.window > t1 {
    } else {
      var next := b.(observed := Credit(b.observed, b.spends[0], b.maxTokens), spends := b.spends[1..]);
      ReleaseComposes(next, t1, t2);
    }
  }

  /** What `Release` does to the spends depends on neither observation nor hold. */
  lemma {:induction false} ReleaseForgets(b: BucketState, hold: Option<nat>, t: nat)
    ensures Release(b, t).(observed := None, blockedUntil := hold)
         == Release(b.(observed := None, blockedUntil := hold), t)
    ensures Release(b, t).observed.Some? <==> b.observed.Some?
    ensures b.observed.Some? ==> Release(b, t).observed.value.at == b.observed.value.at
    ensures Release(b, t) == b.(observed := Release(b, t).observed, spends := Release(b, t).spends)
    decreases |b.spends|
  {
    if b.spends == [] || b.spends[0].at + b.window > t {
    } else {
      var next := b.(observed := Credit(b.observed, b.spends[0], b.maxTokens), spends := b.spends[1..]);
      ReleaseForgets(next, hold, t);
      assert next.(observed := None, blockedUntil := hold)
          == b.(observed := None, blockedUntil := hold).(spends := b.spends[1..]);
    }
  }

  /** Polling a bucket, or listing budgets, never changes what later operations see. */
  lemma {:induction false} SettlingComposes(b: BucketState, t1: nat, t2: nat)
    requires t1 <= t2
    ensures Settled(Settled(b, t1), t2) == Settled(b, t2)
  {
    var early := DropStale(LiftHold(b, t1), t1);
    var late := DropStale(LiftHold(b, t2), t2);
    var both := DropStale(LiftHold(Release(early, t1), t2), t2);
    ReleaseForgets(early, late.blockedUntil, t1);
    assert both == Release(late, t1);
    ReleaseComposes(late, t1, t2);
  }

  // ----- what a settled bucket holds -----

  lemma {:induction false} LiveBounds(spends: seq<Spend>, window: nat, t1: nat, t2: nat)
    requires t1 <= t2
    ensures Live(spends, window, t2) <= Live(spends, window, t1)
    ensures Live(spends, window, t1) + Expired(spends, window, t1) == Total(spends)
  {
    if spends != [] {
      LiveBounds(spends[1..], window, t1, t2);
    }
  }

  lemma {:induction false} LiveAll(spends: seq<Spend>, window: nat, t: nat)
    requires Sorted(spends)
    requires spends != [] ==> spends[0].at + window > t
    ensures Live(spends, window, t) == Total(spends) && Expired(spends, window, t) == 0
  {
    if spends != [] {
      LiveAll(spends[1..], window, t);
    }
  }

  lemma {:induction false} TotalAppend(spends: seq<Spend>, s: Spend, window: nat, t: nat)
    ensures Total(spends + [s]) == Total(spends) + s.tokens
    ensures Live(spends + [s], window, t)
         == Live(spends, window, t) + if s.at + window > t then s.tokens else 0
  {
    if spends == [] {
      assert spends + [s] == [s];
    } else {
      assert (spends + [s])[1..] == spends[1..] + [s];
      TotalAppend(spends[1..], s, window, t);
    }
  }

  lemma {:induction false} ReleaseEstimate(b: BucketState, now: nat, t: nat)
    requires Sorted(b.spends) && now <= t
    ensures var r := Release(b, now);
            && Total(r.spends) == Live(b.spends, b.window, now)
            && Live(r.spends, b.window, t) == Live(b.spends, b.window, t)
            && Sorted(r.spends)
            && (forall s :: s in r.spends ==> s in b.spends)
            && (r.spends != [] ==> r.spends[0].at + b.window > now)
            && (b.observed.Some? && b.observed.value.remaining <= b.maxTokens
                && NoneAfter(b.spends, b.observed.value.at) ==>
                  r.observed == Some(Observation(
                    Min(b.observed.value.remaining + Expired(b.spends, b.window, now), b.maxTokens),
                    b.observed.value.at)))
    decreases |b.spends|
  {
    if b.spends == [] || b.spends[0].at + b.window > now {
      LiveAll(b.spends, b.window, now);
    } else {
      var next := b.(observed := Credit(b.observed, b.spends[0], b.maxTokens), spends := b.spends[1..]);
      ReleaseEstimate(next, now, t);
    }
  }

  /** A delay is not over. */
  predicate IsHeld(b: BucketState, t: nat) {
    b.blockedUntil.Some? && t < b.blockedUntil.value
  }

  /** There is a figure less than a window old, and no delay has ended since. */
  predicate FigureLasts(b: BucketState, t: nat) {
    && b.observed.Some? && t < b.observed.value.at + b.window
    && (b.blockedUntil.Some? ==> t < b.blockedUntil.value)
  }

  /** Settling in closed form: the popping, clamping loop leaves exactly the
      spends still inside the window, a hold that is not over, and the figure, if
      it is less than a window old and no hold has ended, plus everything
      released since, capped at the maximum. */
  lemma {:induction false} SettledInClosedForm(b: BucketState, now: nat, t: nat)
    requires WellFormed(b, now) && now <= t
    ensures var s := Settled(b, t);
            && Total(s.spends) == Live(b.spends, b.window, t)
            && s.blockedUntil == (if IsHeld(b, t) then b.blockedUntil else None)
            && s == b.(observed := s.observed, spends := s.spends, blockedUntil := s.blockedUntil)
            && s.observed == (if !FigureLasts(b, t) then None else Some(Observation(
                 Min(b.observed.value.remaining + Expired(b.spends, b.window, t), b.maxTokens),
                 b.observed.value.at)))
            && WellFormed(s, t)
            && (s.spends != [] ==> s.spends[0].at + b.window > t)
  {
    var ready := DropStale(LiftHold(b, t), t);
    ReleaseEstimate(ready, t, t);
    ReleaseForgets(ready, None, t);
  }

  lemma {:induction false} SettledIsWellFormed(b: BucketState, now: nat)
    requires WellFormed(b, now)
    ensures WellFormed(Settled(b, now), now)
    ensures Settled(b, now).inFlight == b.inFlight && Settled(b, now).window == b.window
  {
    SettledInClosedForm(b, now, now);
  }

  lemma {:induction false} SettledIsTidy(b: BucketState, now: nat, t: nat)
    requires Sorted(b.spends) && now <= t
    ensures var s := Settled(b, now);
            && Sorted(s.spends)
            && (forall x :: x in s.spends ==> x in b.spends)
            && Total(s.spends) == Live(b.spends, b.window, now)
            && Live(s.spends, b.window, t) == Live(b.spends, b.window, t)
            && s == b.(observed := s.observed, spends := s.spends, blockedUntil := s.blockedUntil)
            && s.blockedUntil == (if IsHeld(b, now) then b.blockedUntil else None)
  {
    var ready := DropStale(LiftHold(b, now), now);
    ReleaseEstimate(ready, now, t);
    ReleaseForgets(ready, None, now);
  }

  /** What a response changes, apart from what settling does. */
  lemma {:induction false} RecordedShape(b: BucketState, limit: Option<(nat, nat)>, used: Option<nat>,
                                         remaining: Option<nat>, hold: Option<nat>, now: nat)
    ensures var r := Recorded(b, limit, used, remaining, hold, now);
            var s := Settled(if limit.Some? then b.(maxTokens := limit.value.0, window := limit.value.1) else b, now);
            && r.spends == (if used.Some? && used.value > 0 then s.spends + [Spend(now, used.value)] else s.spends)
            && r.observed == (if remaining.Some? then Some(Observation(Min(remaining.value, s.maxTokens), now))
                              else None)
            && (r.maxTokens, r.window, r.inFlight) == (s.maxTokens, s.window, s.inFlight)
            && (hold.None? ==> r.blockedUntil == s.blockedUntil)
            && (hold.Some? ==> r.blockedUntil.Some? && r.blockedUntil.value >= now + hold.value)
            && (s.blockedUntil.Some? ==> r.blockedUntil.Some? && r.blockedUntil.value >= s.blockedUntil.value)
            && (forall t: nat :: IsHeld(r, t) <==> IsHeld(s, t) || (hold.Some? && t < now + hold.value))
  {
  }

  /** A response adds its own spend, if it names one, to what is still inside
      the window, by the window it brings if it brings another. */
  lemma {:induction false} RecordedSpends(b: BucketState, limit: Option<(nat, nat)>, used: Option<nat>,
                                          remaining: Option<nat>, hold: Option<nat>, now: nat, t: nat)
    requires Sorted(b.spends) && now <= t
    ensures var r := Recorded(b, limit, used, remaining, hold, now);
            var tokens := if used.Some? then used.value else 0;
            && r.window == (if limit.Some? then limit.value.1 else b.window)
            && Total(r.spends) == Live(b.spends, r.window, now) + tokens
            && Live(r.spends, r.window, t) == Live(b.spends, r.window, t) + if now + r.window > t then tokens else 0
  {
    var limited := if limit.Some? then b.(maxTokens := limit.value.0, window := limit.value.1) else b;
    RecordedShape(b, limit, used, remaining, hold, now);
    SettledIsTidy(limited, now, t);
    if used.Some? {
      TotalAppend(Settled(limited, now).spends, Spend(now, used.value), limited.window, t);
    }
  }

  /** A recorded response keeps the bucket well formed, whatever its headers say. */
  lemma {:induction false} RecordedIsWellFormed(b: BucketState, limit: Option<(nat, nat)>, used: Option<nat>,
                                                remaining: Option<nat>, hold: Option<nat>, now: nat)
    requires WellFormed(b, now)
    ensures WellFormed(Recorded(b, limit, used, remaining, hold, now), now)
    ensures Recorded(b, limit, used, remaining, hold, now).inFlight == b.inFlight
    ensures var r := Recorded(b, limit, used, remaining, hold, now);
            (r.maxTokens, r.window) == if limit.Some? then limit.value else (b.maxTokens, b.window)
  {
    RecordedShape(b, limit, used, remaining, hold, now);
    SettledIsTidy(if limit.Some? then b.(maxTokens := limit.value.0, window := limit.value.1) else b, now, now);
  }

  // ----- the predicted instant of admission -----

  /** Short of the found release the tokens do not suffice; at it they do. */
  lemma {:induction false} FirstSufficientIsExact(spends: seq<Spend>, o: Option<Observation>, available: nat,
                                                  needed: nat, window: nat, t: nat)
    requires Sorted(spends) && available < needed
    requires forall s :: s in spends ==> Deducted(o, s)
    ensures var first := FirstSufficient(spends, o, available, needed);
            && (first.None? ==> available + Total(spends) < needed)
            && (first.Some? ==> exists s :: s in spends && s.at == first.value)
            && (first.Some? && t < first.value + window ==> available + Expired(spends, window, t) < needed)
            && (first.Some? && t >= first.value + window ==> available + Expired(spends, window, t) >= needed)
  {
    if spends != [] {
      assert spends[0] in spends;
      if available + spends[0].tokens >= needed {
        if t < spends[0].at + window {
          LiveAll(spends, window, t);
        }
      } else {
        FirstSufficientIsExact(spends[1..], o, available + spends[0].tokens, needed, window, t);
        assert forall s :: s in spends[1..] ==> s in spends;
        if FirstSufficient(spends[1..], o, available + spends[0].tokens, needed).Some? && t < spends[0].at + window {
          LiveAll(spends, window, t);
        }
      }
    }
  }

  /** A settled bucket: nothing is left to apply at `now`. */
  ghost predicate IsSettled(b: BucketState, now: nat) {
    && WellFormed(b, now)
    && (b.blockedUntil.Some? ==> now < b.blockedUntil.value)
    && (b.observed.Some? ==> now < b.observed.value.at + b.window)
    && (b.spends != [] ==> b.spends[0].at + b.window > now)
  }

  lemma {:induction false} SettledIsSettled(b: BucketState, now: nat, t: nat)
    requires WellFormed(b, now) && now <= t
    ensures IsSettled(Settled(b, t), t)
  {
    SettledInClosedForm(b, now, t);
  }

  /** The prediction means "now" exactly when nothing holds the group and the
      bucket covers a worst-case response. */
  lemma {:induction false} ReadyNowExactly(b: BucketState, now: nat)
    requires IsSettled(b, now)
    ensures ReadyAt(b, now) <= now <==> (b.blockedUntil.None? && Available(b) >= ReservationCost(b))
  {
    if b.blockedUntil.None? && Available(b) < ReservationCost(b) {
      FirstSufficientIsExact(b.spends, b.observed, Available(b), ReservationCost(b), b.window, now);
    }
  }

  lemma {:induction false} AdmitsExactly(b: BucketState, now: nat, t: nat)
    requires WellFormed(b, now) && now <= t
    ensures Admits(b, t) <==> (Settled(b, t).blockedUntil.None? && Available(Settled(b, t)) >= ReservationCost(b))
  {
    SettledIsSettled(b, now, t);
    SettledInClosedForm(b, now, t);
    ReadyNowExactly(Settled(b, t), t);
  }

  /** With no further event no instant before the predicted one admits anything. */
  lemma {:induction false} ReadyAtIsNeverLate(b: BucketState, now: nat, t: nat)
    requires IsSettled(b, now) && now <= t < ReadyAt(b, now)
    ensures !Admits(b, t)
  {
    SettledInClosedForm(b, now, t);
    AdmitsExactly(b, now, t);
    if b.blockedUntil.None? {
      FirstSufficientIsExact(b.spends, b.observed, Available(b), ReservationCost(b), b.window, t);
      LiveBounds(b.spends, b.window, t, t);
    }
  }

  /** What the predicted instant is, if it is not now: the end of the hold, or else
      of the window of a spend or of the figure, or else a second from now, for
      reservations to be given back. */
  lemma {:induction false} ReadyAtIsOne(b: BucketState, now: nat)
    requires IsSettled(b, now) && ReadyAt(b, now) > now
    ensures var ready := ReadyAt(b, now);
            match (b.blockedUntil, b.observed)
            case (Some(until), _) => ready == until
            case (None, Some(figure)) =>
              ready == figure.at + b.window || exists s <- b.spends :: ready == s.at + b.window
            case (None, None) =>
              (ready == now + 1_000_000_000 && Total(b.spends) < ReservationCost(b))
              || exists s <- b.spends :: ready == s.at + b.window
  {
    if b.blockedUntil.None? {
      FirstSufficientIsExact(b.spends, b.observed, Available(b), ReservationCost(b), b.window, now);
    }
  }

  /** With nothing in flight and no hold the predicted instant does admit,
      provided the spends alone cannot have exceeded the maximum. */
  lemma {:induction false} ReadyAtIsExact(b: BucketState, now: nat)
    requires IsSettled(b, now) && b.inFlight == 0 && b.blockedUntil.None?
    requires b.observed.None? ==> Total(b.spends) <= b.maxTokens
    ensures ReadyAt(b, now) >= now && Admits(b, ReadyAt(b, now))
  {
    var t := ReadyAt(b, now);
    if Available(b) < ReservationCost(b) {
      FirstSufficientIsExact(b.spends, b.observed, Available(b), ReservationCost(b), b.window, t);
    }
    SettledInClosedForm(b, now, t);
    AdmitsExactly(b, now, t);
    LiveBounds(b.spends, b.window, t, t);
    if b.observed.Some? && t >= b.observed.value.at + b.window {
      AllExpired(b.spends, b.window, b.observed.value.at, t);
    }
  }

  /** Once a hold is over the figure that came with it is gone: the estimate is the
      maximum less the spends still inside the window, and a request is let
      through exactly when that, less what is in flight, covers a worst case. */
  lemma {:induction false} HoldEnded(b: BucketState, now: nat, t: nat)
    requires WellFormed(b, now) && b.blockedUntil.Some? && t >= b.blockedUntil.value && t >= now
    ensures var s := Settled(b, t);
            && s.observed.None? && s.blockedUntil.None?
            && Base(s) == Monus(b.maxTokens, Live(b.spends, b.window, t))
    ensures Admits(b, t) <==>
              Monus(Monus(b.maxTokens, Live(b.spends, b.window, t)), b.inFlight) >= Min(5, b.maxTokens)
  {
    SettledInClosedForm(b, now, t);
    AdmitsExactly(b, now, t);
  }

  /** While it lasts nothing is let through, whatever the tokens. */
  lemma {:induction false} HoldHolds(b: BucketState, now: nat, t: nat)
    requires WellFormed(b, now) && now <= t && IsHeld(b, t)
    ensures !Admits(b, t)
  {
    SettledInClosedForm(b, now, t);
    AdmitsExactly(b, now, t);
  }

  /** A bucket that lets in goes on doing so while nothing else happens. */
  lemma {:induction false} AdmissionLasts(b: BucketState, now: nat, t1: nat, t2: nat)
    requires WellFormed(b, now) && now <= t1 <= t2 && Admits(b, t1)
    ensures Admits(b, t2)
  {
    AdmitsExactly(b, now, t1);
    AdmitsExactly(b, now, t2);
    SettledInClosedForm(b, now, t1);
    SettledInClosedForm(b, now, t2);
    LiveBounds(b.spends, b.window, t1, t2);
    LiveBounds(b.spends, b.window, t2, t2);
    if b.observed.Some? && t2 >= b.observed.value.at + b.window {
      AllExpired(b.spends, b.window, b.observed.value.at, t2);
    }
  }

  lemma {:induction false} AllExpired(spends: seq<Spend>, window: nat, last: nat, t: nat)
    requires NoneAfter(spends, last) && last + window <= t
    ensures Live(spends, window, t) == 0
  {
    if spends != [] {
      assert spends[0] in spends;
      AllExpired(spends[1..], window, last, t);
    }
  }

  /** What is reserved leaves room for one more worst-case response. */
  predicate HasRoom(b: BucketState) {
    Monus(b.maxTokens, b.inFlight) >= ReservationCost(b)
  }

  /** A bucket with room admits no later than its hold allows and one window from now. */
  lemma {:induction false} BucketWithRoomAdmits(b: BucketState, entry: nat, t: nat)
    requires WellFormed(b, entry) && HasRoom(b)
    requires t >= entry + b.window
    requires b.blockedUntil.Some? ==> t >= b.blockedUntil.value
    ensures Admits(b, t)
  {
    SettledInClosedForm(b, entry, t);
    AdmitsExactly(b, entry, t);
    AllExpired(b.spends, b.window, entry, t);
  }

  /** Left to itself a bucket admits a waiting request sooner or later exactly
      when the reservations already made leave room for it. */
  lemma {:induction false} AdmitsEventuallyExactly(b: BucketState, entry: nat)
    requires WellFormed(b, entry)
    ensures (exists t :: t >= entry && Admits(b, t)) <==> HasRoom(b)
  {
    if HasRoom(b) {
      var t := Max(entry + b.window, if b.blockedUntil.Some? then b.blockedUntil.value else 0);
      BucketWithRoomAdmits(b, entry, t);
    } else {
      forall t | t >= entry ensures !Admits(b, t) {
        AdmitsExactly(b, entry, t);
        SettledInClosedForm(b, entry, t);
      }
    }
  }
}
