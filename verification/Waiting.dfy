/** Waiting for a reservation while others use the same limiter. */
module Waiting {
  import opened Prelude
  import opened BucketModel
  import opened LimiterModel

  /** What somebody else asks of the limiter. */
  datatype Deed =
    | Asked(op: string, at: nat)
    | Heard(op: string, f: Figures, at: nat)
    | GaveBack(r: Reservation)
    | Listed(at: nat)

  /** One sleep: how much longer than asked for, and what others did meanwhile. */
  datatype Nap = Nap(late: nat, meanwhile: seq<Deed>)

  /** What waiting came to: a reservation, or still asleep for want of tokens. */
  datatype Outcome = StillWaiting | LetIn(at: nat, reservation: Reservation)

  function Did(st: LimiterState, spec: SpecTable, deed: Deed): LimiterState {
    match deed
    case Asked(op, at) => Poll(st, spec, op, at).0
    case Heard(op, f, at) => RecordResponse(st, spec, op, f, at)
    case GaveBack(r) => GiveBack(st, r)
    case Listed(at) => SettleAll(st, at)
  }

  function DidAll(st: LimiterState, spec: SpecTable, deeds: seq<Deed>): LimiterState
    decreases |deeds|
  {
    if deeds == [] then st else DidAll(Did(st, spec, deeds[0]), spec, deeds[1..])
  }

  function WakesAt(now: nat, ready: nat, nap: Nap): nat {
    now + Min(Monus(ready, now), MAX_POLL) + nap.late
  }

  /** Polling, and sleeping as long as there are naps to take. */
  function Waited(st: LimiterState, spec: SpecTable, op: string, now: nat, naps: seq<Nap>): (LimiterState, Outcome)
    decreases |naps|
  {
    var (polled, result) := Poll(st, spec, op, now);
    if !result.Wait? then (polled, LetIn(now, Granted(result)))
    else if naps == [] then (polled, StillWaiting)
    else Waited(DidAll(polled, spec, naps[0].meanwhile), spec, op, WakesAt(now, result.ready, naps[0]), naps[1..])
  }

  /** A poll that was told to wait leaves later polls as if it had not happened. */
  lemma {:induction false} PollComposes(st: LimiterState, spec: SpecTable, op: string, t1: nat, t2: nat)
    requires t1 <= t2 && Poll(st, spec, op, t1).1.Wait?
    ensures Poll(Poll(st, spec, op, t1).0, spec, op, t2) == Poll(st, spec, op, t2)
  {
    var (found, group) := BucketFor(st, spec, op);
    var g := group.value;
    SettlingComposes(found.buckets[g], t1, t2);
    var once := found.buckets[g := Settled(found.buckets[g], t1)];
    var b := Settled(found.buckets[g], t2);
    var reserved := b.(inFlight := b.inFlight + ReservationCost(b));
    assert once[g := b] == found.buckets[g := b] && once[g := reserved] == found.buckets[g := reserved];
  }

  /** The bucket a request would wait on, if any. */
  function Gate(st: LimiterState, spec: SpecTable, op: string): Option<BucketState> {
    var (found, group) := BucketFor(st, spec, op);
    if group.Some? && group.value in found.buckets then Some(found.buckets[group.value]) else None
  }

  /** The latest instant a group with room makes a request wait for. */
  function Deadline(b: BucketState, entry: nat): nat {
    Max(entry + b.window, if b.blockedUntil.Some? then b.blockedUntil.value else 0)
  }

  /** A request to a group with room waits only before its deadline, and is told to
      come back no later than it. */
  lemma {:induction false} WaitIsBounded(st: LimiterState, spec: SpecTable, op: string, entry: nat, now: nat)
    requires entry <= now && Poll(st, spec, op, now).1.Wait?
    requires var gate := Gate(st, spec, op);
             gate.Some? ==> WellFormed(gate.value, entry) && HasRoom(gate.value)
    ensures Gate(st, spec, op).Some?
    ensures now < Poll(st, spec, op, now).1.ready <= Deadline(Gate(st, spec, op).value, entry)
  {
    var b := Gate(st, spec, op).value;
    var deadline := Deadline(b, entry);
    if now >= deadline {
      BucketWithRoomAdmits(b, entry, now);
    } else if ReadyAt(Settled(b, now), now) > deadline {
      SettledIsSettled(b, entry, now);
      ReadyAtIsNeverLate(Settled(b, now), now, deadline);
      SettlingComposes(b, now, deadline);
      BucketWithRoomAdmits(b, entry, deadline);
    }
  }

  // ----- an otherwise idle group -----

  /** What leaves an idle group idle: whatever concerns other groups and
      operations, others being told to wait for the same group, reservations
      given back to any group, and listings. */
  predicate Harmless(st: LimiterState, spec: SpecTable, op: string, entry: nat, deed: Deed) {
    match deed
    case Asked(other, at) =>
      || GroupOf(st, spec, other) != GroupOf(st, spec, op)
      || (at >= entry && Poll(st, spec, other, at).1.Wait?)
    case Heard(other, f, _) =>
      !Relevant(f) || (other != op && RecordGroup(st, spec, other, f) != GroupOf(st, spec, op))
    case GaveBack(_) => true
    case Listed(at) => at >= entry
  }

  predicate AllHarmless(st: LimiterState, spec: SpecTable, op: string, entry: nat, deeds: seq<Deed>)
    decreases |deeds|
  {
    deeds == [] ||
      (Harmless(st, spec, op, entry, deeds[0]) && AllHarmless(Did(st, spec, deeds[0]), spec, op, entry, deeds[1..]))
  }

  /** The group stays idle in every nap the waiter takes. */
  predicate Idle(st: LimiterState, spec: SpecTable, op: string, entry: nat, now: nat, naps: seq<Nap>)
    decreases |naps|
  {
    var (polled, result) := Poll(st, spec, op, now);
    result.Wait? && naps != [] ==>
      && AllHarmless(polled, spec, op, entry, naps[0].meanwhile)
      && Idle(DidAll(polled, spec, naps[0].meanwhile), spec, op, entry, WakesAt(now, result.ready, naps[0]), naps[1..])
  }

  ghost predicate Punctual(naps: seq<Nap>, slack: nat) {
    forall nap <- naps :: nap.late <= slack
  }

  /** The bucket was well formed at `entry`, has room, and lets in by `deadline`. */
  ghost predicate LetsInBy(b: BucketState, entry: nat, deadline: nat) {
    WellFormed(b, entry) && HasRoom(b) && Deadline(b, entry) <= deadline
  }

  lemma {:induction false} SettledLetsIn(b: BucketState, entry: nat, at: nat, deadline: nat)
    requires LetsInBy(b, entry, deadline) && at >= entry
    ensures LetsInBy(Settled(b, at), entry, deadline)
  {
    SettledInClosedForm(b, entry, at);
    SettledIsTidy(b, at, at);
  }

  /** The waiter's group has a bucket, and it lets in by `deadline`. */
  ghost predicate Promising(st: LimiterState, spec: SpecTable, op: string, group: string, entry: nat, deadline: nat) {
    && GroupOf(st, spec, op) == Some(group)
    && group in st.buckets && LetsInBy(st.buckets[group], entry, deadline)
  }

  lemma {:induction false} AskedStaysPromising(st: LimiterState, spec: SpecTable, op: string, group: string,
                                               entry: nat, deadline: nat, other: string, at: nat)
    requires Promising(st, spec, op, group, entry, deadline)
    requires GroupOf(st, spec, other) != Some(group) || (at >= entry && Poll(st, spec, other, at).1.Wait?)
    ensures Promising(Poll(st, spec, other, at).0, spec, op, group, entry, deadline)
  {
    if GroupOf(st, spec, other) == Some(group) {
      SettledLetsIn(st.buckets[group], entry, at, deadline);
    }
  }

  lemma {:induction false} DeedStaysPromising(st: LimiterState, spec: SpecTable, op: string, group: string,
                                              entry: nat, deadline: nat, deed: Deed)
    requires Promising(st, spec, op, group, entry, deadline) && Harmless(st, spec, op, entry, deed)
    ensures Promising(Did(st, spec, deed), spec, op, group, entry, deadline)
  {
    match deed
    case Asked(other, at) => AskedStaysPromising(st, spec, op, group, entry, deadline, other, at);
    case Heard(_, _, _) =>
    case GaveBack(_) =>
    case Listed(at) => SettledLetsIn(st.buckets[group], entry, at, deadline);
  }

  lemma {:induction false} DeedsStayPromising(st: LimiterState, spec: SpecTable, op: string, group: string,
                                              entry: nat, deadline: nat, deeds: seq<Deed>)
    requires Promising(st, spec, op, group, entry, deadline) && AllHarmless(st, spec, op, entry, deeds)
    ensures Promising(DidAll(st, spec, deeds), spec, op, group, entry, deadline)
    decreases |deeds|
  {
    if deeds != [] {
      DeedStaysPromising(st, spec, op, group, entry, deadline, deeds[0]);
      DeedsStayPromising(Did(st, spec, deeds[0]), spec, op, group, entry, deadline, deeds[1..]);
    }
  }

  lemma {:induction false} PromisingGetsIn(st: LimiterState, spec: SpecTable, op: string, group: string, entry: nat,
                                           deadline: nat, now: nat, naps: seq<Nap>, slack: nat)
    requires Promising(st, spec, op, group, entry, deadline) && entry <= now <= deadline + slack
    requires Idle(st, spec, op, entry, now, naps) && Punctual(naps, slack) && |naps| >= Monus(deadline, now)
    ensures var outcome := Waited(st, spec, op, now, naps).1;
            outcome.LetIn? && now <= outcome.at <= deadline + slack && outcome.reservation.group == Some(group)
    decreases |naps|
  {
    var (polled, result) := Poll(st, spec, op, now);
    if result.Wait? {
      WaitIsBounded(st, spec, op, entry, now);
      AskedStaysPromising(st, spec, op, group, entry, deadline, op, now);
      DeedsStayPromising(polled, spec, op, group, entry, deadline, naps[0].meanwhile);
      assert naps[0] in naps && Punctual(naps[1..], slack);
      PromisingGetsIn(DidAll(polled, spec, naps[0].meanwhile), spec, op, group, entry, deadline,
                      WakesAt(now, result.ready, naps[0]), naps[1..], slack);
    }
  }

  /** Every waiter gets in: with room beside the reservations already made, in an
      otherwise idle group, however the limiter is used for other groups meanwhile,
      no later than one window from entry or the end of the hold, plus the slack of
      one sleep. */
  lemma {:induction false} WaiterGetsIn(st: LimiterState, spec: SpecTable, op: string, entry: nat, naps: seq<Nap>,
                                        slack: nat)
    requires Idle(st, spec, op, entry, entry, naps) && Punctual(naps, slack)
    requires var gate := Gate(st, spec, op);
             gate.Some? ==> WellFormed(gate.value, entry) && HasRoom(gate.value)
                            && |naps| >= Deadline(gate.value, entry) - entry
    ensures var outcome := Waited(st, spec, op, entry, naps).1;
            var gate := Gate(st, spec, op);
            && outcome.LetIn? && outcome.at >= entry
            && (gate.Some? ==> outcome.reservation.group == GroupOf(st, spec, op))
            && outcome.at <= if gate.Some? then Deadline(gate.value, entry) + slack else entry
  {
    var gate := Gate(st, spec, op);
    if gate.Some? {
      var (found, group) := BucketFor(st, spec, op);
      SameOnceFound(st, spec, op, entry, naps);
      PromisingGetsIn(found, spec, op, group.value, entry, Deadline(gate.value, entry), entry, naps, slack);
    }
  }

  /** Creating the bucket first makes no difference to the wait. */
  lemma {:induction false} SameOnceFound(st: LimiterState, spec: SpecTable, op: string, now: nat, naps: seq<Nap>)
    ensures var found := BucketFor(st, spec, op).0;
            && Poll(found, spec, op, now) == Poll(st, spec, op, now)
            && Waited(found, spec, op, now, naps) == Waited(st, spec, op, now, naps)
            && (forall entry :: Idle(found, spec, op, entry, now, naps) == Idle(st, spec, op, entry, now, naps))
  {
    assert Poll(BucketFor(st, spec, op).0, spec, op, now) == Poll(st, spec, op, now);
  }

  // ----- nobody else about -----

  ghost predicate Quiet(naps: seq<Nap>, slack: nat) {
    forall nap <- naps :: nap.meanwhile == [] && nap.late <= slack
  }

  ghost predicate SameFrom(st: LimiterState, spec: SpecTable, op: string, before: LimiterState, now: nat) {
    forall t :: t >= now ==> Poll(st, spec, op, t) == Poll(before, spec, op, t)
  }

  /** A poll in vain says when to come back, and until then every other is. */
  lemma {:induction false} VainUntilReady(st: LimiterState, spec: SpecTable, op: string, entry: nat, now: nat, t: nat)
    requires Gate(st, spec, op).Some? ==> WellFormed(Gate(st, spec, op).value, entry)
    requires entry <= now <= t && Poll(st, spec, op, now).1.Wait? && t < Poll(st, spec, op, now).1.ready
    ensures Poll(st, spec, op, t).1.Wait?
  {
    var b := Gate(st, spec, op).value;
    SettledIsSettled(b, entry, now);
    ReadyAtIsNeverLate(Settled(b, now), now, t);
    SettlingComposes(b, now, t);
  }

  lemma {:induction false} QuietWait(before: LimiterState, st: LimiterState, spec: SpecTable, op: string, entry: nat,
                                     now: nat, naps: seq<Nap>, slack: nat)
    requires entry <= now && Quiet(naps, slack) && SameFrom(st, spec, op, before, now)
    requires Gate(before, spec, op).Some? ==> WellFormed(Gate(before, spec, op).value, entry)
    ensures var (after, outcome) := Waited(st, spec, op, now, naps);
            outcome.LetIn? ==>
              && outcome.at >= now && !Poll(before, spec, op, outcome.at).1.Wait?
              && after == Poll(before, spec, op, outcome.at).0
              && outcome.reservation == Granted(Poll(before, spec, op, outcome.at).1)
              && (slack == 0 ==> forall t :: now <= t < outcome.at ==> Poll(before, spec, op, t).1.Wait?)
    decreases |naps|
  {
    var (polled, result) := Poll(st, spec, op, now);
    if result.Wait? && naps != [] {
      var wakes := WakesAt(now, result.ready, naps[0]);
      assert naps[0] in naps && Quiet(naps[1..], slack);
      forall t | t >= wakes ensures Poll(polled, spec, op, t) == Poll(before, spec, op, t) {
        PollComposes(st, spec, op, now, t);
      }
      QuietWait(before, polled, spec, op, entry, wakes, naps[1..], slack);
      if slack == 0 {
        forall t | now <= t < wakes ensures Poll(before, spec, op, t).1.Wait? {
          VainUntilReady(before, spec, op, entry, now, t);
        }
      }
    }
  }

  lemma {:induction false} QuietIsIdle(st: LimiterState, spec: SpecTable, op: string, entry: nat, now: nat,
                                       naps: seq<Nap>, slack: nat)
    requires Quiet(naps, slack)
    ensures Idle(st, spec, op, entry, now, naps) && Punctual(naps, slack)
    decreases |naps|
  {
    var (polled, result) := Poll(st, spec, op, now);
    if result.Wait? && naps != [] {
      assert naps[0] in naps && Quiet(naps[1..], slack);
      QuietIsIdle(polled, spec, op, entry, WakesAt(now, result.ready, naps[0]), naps[1..], slack);
    }
  }

  /** With nobody else about, the polls leave no trace, and a waiter who never
      oversleeps is let in at the first instant that would have admitted anything. */
  lemma {:induction false} QuietWaiterGetsInFirst(st: LimiterState, spec: SpecTable, op: string, entry: nat,
                                                  naps: seq<Nap>, slack: nat)
    requires Quiet(naps, slack)
    requires var gate := Gate(st, spec, op);
             gate.Some? ==> WellFormed(gate.value, entry) && HasRoom(gate.value)
                            && |naps| >= Deadline(gate.value, entry) - entry
    ensures var (after, outcome) := Waited(st, spec, op, entry, naps);
            && outcome.LetIn? && outcome.at >= entry
            && (after, outcome.reservation)
            == (Poll(st, spec, op, outcome.at).0, Granted(Poll(st, spec, op, outcome.at).1))
            && !Poll(st, spec, op, outcome.at).1.Wait?
            && (slack == 0 ==> forall t :: entry <= t < outcome.at ==> Poll(st, spec, op, t).1.Wait?)
  {
    QuietIsIdle(st, spec, op, entry, entry, naps, slack);
    WaiterGetsIn(st, spec, op, entry, naps, slack);
    QuietWait(st, st, spec, op, entry, entry, naps, slack);
  }

  /** Without room, and left alone, nobody is ever let in: the wait is for others
      to give back. */
  lemma {:induction false} NoRoomNoEntry(st: LimiterState, spec: SpecTable, op: string, now: nat)
    requires var gate := Gate(st, spec, op); gate.Some? && WellFormed(gate.value, now) && !HasRoom(gate.value)
    ensures forall t :: t >= now ==> Poll(st, spec, op, t).1.Wait?
  {
    var b := Gate(st, spec, op).value;
    AdmitsEventuallyExactly(b, now);
    forall t | t >= now ensures Poll(st, spec, op, t).1.Wait? {
      assert !Admits(b, t);
    }
  }

  // ----- how often a waiter asks -----

  /** The instants of a waiter's polls. */
  function Polls(st: LimiterState, spec: SpecTable, op: string, now: nat, naps: seq<Nap>): seq<nat>
    decreases |naps|
  {
    var (polled, result) := Poll(st, spec, op, now);
    if !result.Wait? || naps == [] then [now] else
    var after := DidAll(polled, spec, naps[0].meanwhile);
    [now] + Polls(after, spec, op, WakesAt(now, result.ready, naps[0]), naps[1..])
  }

  /** What is left of a wait that comes to `whole`, with polls at `asked` in all. */
  ghost predicate Remains(st: LimiterState, spec: SpecTable, op: string, now: nat, naps: seq<Nap>, polls: seq<nat>,
                          whole: (LimiterState, Outcome), asked: seq<nat>)
  {
    Waited(st, spec, op, now, naps) == whole && polls + Polls(st, spec, op, now, naps) == asked
  }

  /** One poll, and what is left of the wait after it. */
  lemma {:induction false} OnePoll(st: LimiterState, spec: SpecTable, op: string, now: nat, naps: seq<Nap>, n: nat,
                                   polls: seq<nat>, whole: (LimiterState, Outcome), asked: seq<nat>)
    requires n <= |naps| && Remains(st, spec, op, now, naps[n..], polls, whole, asked)
    ensures var (polled, result) := Poll(st, spec, op, now);
            if !result.Wait? then whole == (polled, LetIn(now, Granted(result))) && asked == polls + [now]
            else if n == |naps| then whole == (polled, StillWaiting) && asked == polls + [now]
            else
              Remains(DidAll(polled, spec, naps[n].meanwhile), spec, op, WakesAt(now, result.ready, naps[n]),
                      naps[n + 1..], polls + [now], whole, asked)
  {
    if n < |naps| {
      assert naps[n..][0] == naps[n] && naps[n..][1..] == naps[n + 1..];
    }
  }

  /** A waiter sleeps until it was told to come back, but never longer than a second,
      and what the sleep itself overruns, and is let in at a poll. */
  lemma {:induction false} PollsAreClose(st: LimiterState, spec: SpecTable, op: string, now: nat, naps: seq<Nap>)
    ensures var polls, outcome := Polls(st, spec, op, now, naps), Waited(st, spec, op, now, naps).1;
            && 1 <= |polls| <= |naps| + 1 && polls[0] == now
            && (forall k :: 0 <= k < |polls| - 1 ==>
                  polls[k] <= polls[k + 1] <= polls[k] + 1_000_000_000 + naps[k].late)
            && (|polls| > 1 ==>
                  var wait := Poll(st, spec, op, now).1.ready - now;
                  polls[1] == now + naps[0].late + if wait < 1_000_000_000 then wait else 1_000_000_000)
            && (outcome.LetIn? ==> outcome.at == polls[|polls| - 1])
            && (outcome.StillWaiting? ==> |polls| == |naps| + 1)
    decreases |naps|
  {
    var (polled, result) := Poll(st, spec, op, now);
    if result.Wait? && naps != [] {
      var after, wakes := DidAll(polled, spec, naps[0].meanwhile), WakesAt(now, result.ready, naps[0]);
      PollsAreClose(after, spec, op, wakes, naps[1..]);
      var polls, rest := Polls(st, spec, op, now, naps), Polls(after, spec, op, wakes, naps[1..]);
      assert polls == [now] + rest;
      forall k | 0 <= k < |polls| - 1 ensures polls[k] <= polls[k + 1] <= polls[k] + 1_000_000_000 + naps[k].late {
        if k > 0 {
          assert polls[k] == rest[k - 1] && naps[k] == naps[1..][k - 1];
        }
      }
    }
  }

  /** From `opens` on the bucket lets in. */
  ghost predicate Open(b: BucketState, entry: nat, opens: nat) {
    WellFormed(b, entry) && entry <= opens && Admits(b, opens)
  }

  /** Settling an open bucket, at whatever time, leaves it open. */
  lemma {:induction false} SettledStaysOpen(b: BucketState, entry: nat, opens: nat, at: nat)
    requires Open(b, entry, opens) && at >= entry
    ensures Open(Settled(b, at), entry, opens)
  {
    SettledInClosedForm(b, entry, at);
    SettledIsTidy(b, at, at);
    if at <= opens {
      SettlingComposes(b, at, opens);
    } else {
      AdmissionLasts(b, entry, opens, at);
      AdmitsExactly(b, entry, at);
      SettledInClosedForm(Settled(b, at), entry, opens);
      AdmitsExactly(Settled(b, at), entry, opens);
      NothingToRelease(Settled(b, at), at, opens);
    }
  }

  lemma {:induction false} NothingToRelease(b: BucketState, at: nat, t: nat)
    requires IsSettled(b, at) && t <= at && b.blockedUntil.None?
    ensures Settled(b, t) == b
  {
  }

  /** So does giving tokens back. */
  lemma {:induction false} ReturnedStaysOpen(b: BucketState, entry: nat, opens: nat, tokens: nat)
    requires Open(b, entry, opens)
    ensures Open(b.(inFlight := Monus(b.inFlight, tokens)), entry, opens)
  {
    var after := b.(inFlight := Monus(b.inFlight, tokens));
    AdmitsExactly(b, entry, opens);
    AdmitsExactly(after, entry, opens);
    SettledInClosedForm(b, entry, opens);
    SettledInClosedForm(after, entry, opens);
  }

  /** The waiter's group has a bucket, and it is open from `opens` on. */
  ghost predicate Opening(st: LimiterState, spec: SpecTable, op: string, group: string, entry: nat, opens: nat) {
    GroupOf(st, spec, op) == Some(group) && group in st.buckets && Open(st.buckets[group], entry, opens)
  }

  lemma {:induction false} AskedStaysOpening(st: LimiterState, spec: SpecTable, op: string, group: string,
                                             entry: nat, opens: nat, other: string, at: nat)
    requires Opening(st, spec, op, group, entry, opens)
    requires GroupOf(st, spec, other) != Some(group) || (at >= entry && Poll(st, spec, other, at).1.Wait?)
    ensures Opening(Poll(st, spec, other, at).0, spec, op, group, entry, opens)
  {
    if GroupOf(st, spec, other) == Some(group) {
      SettledStaysOpen(st.buckets[group], entry, opens, at);
    }
  }

  lemma {:induction false} DeedStaysOpening(st: LimiterState, spec: SpecTable, op: string, group: string, entry: nat,
                                            opens: nat, deed: Deed)
    requires Opening(st, spec, op, group, entry, opens) && Harmless(st, spec, op, entry, deed)
    ensures Opening(Did(st, spec, deed), spec, op, group, entry, opens)
  {
    match deed
    case Asked(other, at) => AskedStaysOpening(st, spec, op, group, entry, opens, other, at);
    case Heard(_, _, _) =>
    case GaveBack(r) => ReturnedStaysOpen(st.buckets[group], entry, opens, r.tokens);
    case Listed(at) => SettledStaysOpen(st.buckets[group], entry, opens, at);
  }

  lemma {:induction false} DeedsStayOpening(st: LimiterState, spec: SpecTable, op: string, group: string, entry: nat,
                                            opens: nat, deeds: seq<Deed>)
    requires Opening(st, spec, op, group, entry, opens) && AllHarmless(st, spec, op, entry, deeds)
    ensures Opening(DidAll(st, spec, deeds), spec, op, group, entry, opens)
    decreases |deeds|
  {
    if deeds != [] {
      DeedStaysOpening(st, spec, op, group, entry, opens, deeds[0]);
      DeedsStayOpening(Did(st, spec, deeds[0]), spec, op, group, entry, opens, deeds[1..]);
    }
  }

  /** A waiter who asks no later than a second, and the slack, after the bucket opens is let in by then. */
  lemma {:induction false} OpeningGetsIn(st: LimiterState, spec: SpecTable, op: string, group: string, entry: nat,
                                         opens: nat, now: nat, naps: seq<Nap>, slack: nat)
    requires Opening(st, spec, op, group, entry, opens) && entry <= now <= opens + 1_000_000_000 + slack
    requires Idle(st, spec, op, entry, now, naps) && Punctual(naps, slack) && |naps| >= Monus(opens, now)
    ensures var outcome := Waited(st, spec, op, now, naps).1;
            outcome.LetIn? && outcome.at <= opens + 1_000_000_000 + slack && outcome.reservation.group == Some(group)
    decreases |naps|
  {
    var (polled, result) := Poll(st, spec, op, now);
    if result.Wait? {
      if now >= opens {
        AdmissionLasts(st.buckets[group], entry, opens, now);
        assert false;
      } else {
        AskedStaysOpening(st, spec, op, group, entry, opens, op, now);
        DeedsStayOpening(polled, spec, op, group, entry, opens, naps[0].meanwhile);
        assert naps[0] in naps && Punctual(naps[1..], slack);
        OpeningGetsIn(DidAll(polled, spec, naps[0].meanwhile), spec, op, group, entry, opens,
                      WakesAt(now, result.ready, naps[0]), naps[1..], slack);
      }
    }
  }

  /** A waiter in vain, whatever others then do in the nap, is let in within a second,
      and the slack, of the first instant the group's bucket lets in after it: when
      a reservation is given back, say. */
  lemma {:induction false} LetInSoon(st: LimiterState, spec: SpecTable, op: string, now: nat, naps: seq<Nap>,
                                     group: string, since: nat, opens: nat, slack: nat)
    requires Poll(st, spec, op, now).1.Wait? && naps != [] && Punctual(naps, slack)
    requires var after := DidAll(Poll(st, spec, op, now).0, spec, naps[0].meanwhile);
             var wakes := WakesAt(now, Poll(st, spec, op, now).1.ready, naps[0]);
             && now <= opens && Opening(after, spec, op, group, since, opens) && since <= wakes
             && Idle(after, spec, op, since, wakes, naps[1..]) && |naps| > Monus(opens, wakes)
    ensures var outcome := Waited(st, spec, op, now, naps).1;
            outcome.LetIn? && outcome.at <= opens + 1_000_000_000 + slack && outcome.reservation.group == Some(group)
  {
    var (polled, result) := Poll(st, spec, op, now);
    assert naps[0] in naps && Punctual(naps[1..], slack);
    OpeningGetsIn(DidAll(polled, spec, naps[0].meanwhile), spec, op, group, since, opens,
                  WakesAt(now, result.ready, naps[0]), naps[1..], slack);
  }

  /** Somebody gives a reservation back during the first nap and nothing else happens:
      the waiter is let in within a second, and the slack, of the first instant at
      which that makes enough. */
  lemma {:induction false} ReturnLetsIn(st: LimiterState, spec: SpecTable, op: string, now: nat, naps: seq<Nap>,
                                        group: string, r: Reservation, opens: nat, slack: nat)
    requires GroupOf(st, spec, op) == Some(group) && group in st.buckets && WellFormed(st.buckets[group], now)
    requires Poll(st, spec, op, now).1.Wait? && r.group == Some(group) && now <= opens
    requires naps != [] && naps[0].meanwhile == [GaveBack(r)] && naps[0].late <= slack && Quiet(naps[1..], slack)
    requires |naps| > opens - now
    requires var b := Settled(st.buckets[group], opens);
             b.blockedUntil.None? && Monus(Base(b), Monus(b.inFlight, r.tokens)) >= Min(5, b.maxTokens)
    ensures var outcome := Waited(st, spec, op, now, naps).1;
            outcome.LetIn? && outcome.at <= opens + 1_000_000_000 + slack && outcome.reservation.group == Some(group)
  {
    var (polled, result) := Poll(st, spec, op, now);
    var after, wakes := DidAll(polled, spec, naps[0].meanwhile), WakesAt(now, result.ready, naps[0]);
    OneDeed(polled, spec, GaveBack(r));
    ReturnOpens(st.buckets[group], now, opens, r.tokens);
    QuietIsIdle(after, spec, op, now, wakes, naps[1..], slack);
    assert forall nap <- naps :: nap == naps[0] || nap in naps[1..];
    LetInSoon(st, spec, op, now, naps, group, now, opens, slack);
  }

  lemma {:induction false} OneDeed(st: LimiterState, spec: SpecTable, deed: Deed)
    ensures DidAll(st, spec, [deed]) == Did(st, spec, deed)
  {
    assert [deed][1..] == [];
  }

  lemma {:induction false} ReturnOpens(b: BucketState, now: nat, opens: nat, tokens: nat)
    requires WellFormed(b, now) && now <= opens
    requires var s := Settled(b, opens);
             s.blockedUntil.None? && Monus(Base(s), Monus(s.inFlight, tokens)) >= Min(5, s.maxTokens)
    ensures var settled := Settled(b, now);
            Open(settled.(inFlight := Monus(settled.inFlight, tokens)), now, opens)
  {
    var settled := Settled(b, now);
    var after := settled.(inFlight := Monus(settled.inFlight, tokens));
    SettledInClosedForm(b, now, now);
    SettlingComposes(b, now, opens);
    SettledInClosedForm(settled, now, opens);
    SettledInClosedForm(after, now, opens);
    AdmitsExactly(after, now, opens);
  }
}
