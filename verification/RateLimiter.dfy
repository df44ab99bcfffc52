/** The rate limiter object: buckets created, settled, reserved from and recorded into. */
module RateLimiters {
  import opened Prelude
  import opened BucketModel
  import opened LimiterModel
  import opened Waiting
  import opened Buckets

  /** What the request being followed asked of the limiter, in order. */
  datatype Event = Took(r: Reservation) | Noted(op: string, f: Figures, at: nat) | Returned(r: Reservation)

  class RateLimiter {
    const spec: SpecTable
    var buckets: map<string, Bucket>
    var learned: map<string, string>
    ghost var history: seq<Event>

    constructor (spec: SpecTable)
      ensures Valid() && View() == LimiterState(map[], map[])
      ensures this.spec == spec && buckets == map[] && history == []
    {
      this.spec := spec;
      buckets := map[];
      learned := map[];
      history := [];
    }

    /** No two groups share a bucket. */
    ghost predicate Valid()
      reads this`buckets
    {
      forall g :: g in buckets ==> buckets[g].owner == g
    }

    ghost function View(): LimiterState
      reads this`buckets, this`learned, buckets.Values
    {
      LimiterState(map g | g in buckets :: buckets[g].View(), learned)
    }

    /** Touching one bucket changes one entry of the view. */
    twostate lemma {:induction false} OneBucketTouched(group: string)
      requires old(Valid()) && buckets == old(buckets) && learned == old(learned) && group in buckets
      requires forall g :: g in buckets && g != group ==> unchanged(buckets[g])
      ensures View() == old(View()).(buckets := old(View()).buckets[group := buckets[group].View()])
    {
    }

    /** Gives a group a bucket, if it has none and a limit is known. */
    method Occupy(group: string, op: string, limit: Option<(nat, nat)>)
      requires Valid()
      modifies this`buckets
      ensures Valid() && fresh(buckets.Values - old(buckets.Values))
      ensures group in buckets <==> (group in old(buckets) || Vacant(spec, op, limit).Some?)
      ensures var vacant := Vacant(spec, op, limit);
              View() == if group in old(buckets) || vacant.None? then old(View())
                        else old(View()).(buckets := old(View()).buckets[group := vacant.value])
    {
      if group !in buckets {
        if limit.Some? {
          Add(group, limit.value.0, limit.value.1);
        } else if op in spec {
          Add(group, spec[op].maxTokens, spec[op].windowSecs * SECOND);
        }
      }
    }

    method Add(group: string, maxTokens: nat, window: nat)
      requires Valid() && group !in buckets
      modifies this`buckets
      ensures Valid() && fresh(buckets.Values - old(buckets.Values)) && buckets.Keys == old(buckets.Keys) + {group}
      ensures View() == old(View()).(buckets := old(View()).buckets[group := Fresh(maxTokens, window)])
    {
      ghost var before := View().buckets;
      var bucket := new Bucket(maxTokens, window, group);
      buckets := buckets[group := bucket];
      assert View().buckets == before[group := Fresh(maxTokens, window)];
    }

    /** The group governing an operation, its bucket created on first use. */
    method BucketOf(op: string) returns (group: Option<string>)
      requires Valid()
      modifies this`buckets
      ensures Valid() && fresh(buckets.Values - old(buckets.Values))
      ensures (View(), group) == BucketFor(old(View()), spec, op)
      ensures group.Some? ==> group.value in buckets
    {
      if op in learned {
        group := Some(learned[op]);
      } else if op in spec {
        group := Some(spec[op].group);
      } else {
        return None;
      }
      Occupy(group.value, op, None);
      if group.value !in buckets {
        group := None;
      }
    }

    /** One round of waiting: settles the bucket, then reserves or says when to return. */
    method TryAcquire(op: string, now: nat) returns (result: PollResult)
      requires Valid()
      modifies this`buckets, buckets.Values
      ensures Valid() && fresh(buckets.Values - old(buckets.Values))
      ensures (View(), result) == Poll(old(View()), spec, op, now)
    {
      var group := BucketOf(op);
      if group.None? {
        return Unlimited;
      }
      result := Reserve(group.value, now);
    }

    method Reserve(group: string, now: nat) returns (result: PollResult)
      requires Valid() && group in buckets
      modifies buckets[group]
      ensures (View(), result) == PollBucket(old(View()), group, now)
    {
      var ready, tokens := buckets[group].ReserveIfReady(now);
      OneBucketTouched(group);
      result := if ready <= now then Admitted(Reservation(Some(group), tokens)) else Wait(ready);
    }

    /** Waits until the operation's group covers a worst-case response, then
        reserves it, for as long as there are naps to take. Others may use the
        limiter during each of them. */
    method Acquire(op: string, entry: nat, naps: seq<Nap>) returns (outcome: Outcome)
      requires Valid()
      modifies this, buckets.Values
      ensures Valid() && fresh(buckets.Values - old(buckets.Values))
      ensures (View(), outcome) == Waited(old(View()), spec, op, entry, naps)
      ensures history == old(history) + if outcome.LetIn? then [Took(outcome.reservation)] else []
    {
      ghost var polls: seq<nat>;
      outcome, polls := Await(op, entry, naps);
      ghost var granted := View();
      history := history + if outcome.LetIn? then [Took(outcome.reservation)] else [];
      assert View() == granted;
    }

    /** The loop of settling, asking and sleeping; `polls` says when it asks. */
    method Await(op: string, entry: nat, naps: seq<Nap>) returns (outcome: Outcome, ghost polls: seq<nat>)
      requires Valid()
      modifies this`buckets, this`learned, buckets.Values
      ensures Valid() && fresh(buckets.Values - old(buckets.Values))
      ensures (View(), outcome) == Waited(old(View()), spec, op, entry, naps)
      ensures polls == Polls(old(View()), spec, op, entry, naps)
    {
      ghost var whole, asked := Waited(View(), spec, op, entry, naps), Polls(View(), spec, op, entry, naps);
      var now, n := entry, 0;
      polls := [];
      assert naps[0..] == naps && [] + asked == asked;
      while true
        invariant Valid() && fresh(buckets.Values - old(buckets.Values)) && n <= |naps|
        invariant Remains(View(), spec, op, now, naps[n..], polls, whole, asked)
        decreases |naps| - n
      {
        OnePoll(View(), spec, op, now, naps, n, polls, whole, asked);
        var result := AskAndSleep(op, now, if n < |naps| then naps[n].meanwhile else []);
        polls := polls + [now];
        if !result.Wait? {
          return LetIn(now, Granted(result)), polls;
        }
        if n == |naps| {
          return StillWaiting, polls;
        }
        now, n := WakesAt(now, result.ready, naps[n]), n + 1;
      }
    }

    /** One poll and, if it was in vain, what others do before the next. */
    method AskAndSleep(op: string, now: nat, meanwhile: seq<Deed>) returns (result: PollResult)
      requires Valid()
      modifies this`buckets, this`learned, buckets.Values
      ensures Valid() && fresh(buckets.Values - old(buckets.Values))
      ensures var (polled, answer) := Poll(old(View()), spec, op, now);
              result == answer && View() == if answer.Wait? then DidAll(polled, spec, meanwhile) else polled
    {
      result := TryAcquire(op, now);
      if result.Wait? {
        PerformAll(meanwhile);
      }
    }

    /** What others do while a request sleeps. */
    method PerformAll(deeds: seq<Deed>)
      requires Valid()
      modifies this`buckets, this`learned, buckets.Values
      ensures Valid() && fresh(buckets.Values - old(buckets.Values))
      ensures View() == DidAll(old(View()), spec, deeds)
    {
      ghost var whole := DidAll(View(), spec, deeds);
      assert deeds[0..] == deeds;
      for n := 0 to |deeds|
        invariant Valid() && fresh(buckets.Values - old(buckets.Values))
        invariant DidAll(View(), spec, deeds[n..]) == whole
      {
        assert deeds[n..][0] == deeds[n] && deeds[n..][1..] == deeds[n + 1..];
        Perform(deeds[n]);
      }
    }

    method Perform(deed: Deed)
      requires Valid()
      modifies this`buckets, this`learned, buckets.Values
      ensures Valid() && fresh(buckets.Values - old(buckets.Values))
      ensures View() == Did(old(View()), spec, deed)
    {
      match deed
      case Asked(op, at) => var _ := TryAcquire(op, at);
      case Heard(op, f, at) => Ingest(op, f, at);
      case GaveBack(r) => PutBack(r);
      case Listed(at) => var _ := Budgets(at);
    }

    /** Records the rate-limit figures of a response. */
    method Record(op: string, f: Figures, now: nat)
      requires Valid()
      modifies this, buckets.Values
      ensures Valid() && fresh(buckets.Values - old(buckets.Values))
      ensures View() == RecordResponse(old(View()), spec, op, f, now)
      ensures history == old(history) + [Noted(op, f, now)]
    {
      Ingest(op, f, now);
      ghost var recorded := View();
      history := history + [Noted(op, f, now)];
      assert View() == recorded;
    }

    method Ingest(op: string, f: Figures, now: nat)
      requires Valid()
      modifies this`buckets, this`learned, buckets.Values
      ensures Valid() && fresh(buckets.Values - old(buckets.Values))
      ensures View() == RecordResponse(old(View()), spec, op, f, now)
    {
      if f.limit.None? && f.remaining.None? && f.used.None? && f.hold.None? {
        return;
      }
      var group := RecordGroupOf(op, f);
      if group.None? {
        return;
      }
      Occupy(group.value, op, f.limit);
      RecordInSteps(old(View()), spec, op, f, now, View());
      if group.value in buckets {
        label occupied:
        buckets[group.value].Record(f.limit, f.used, f.remaining, f.hold, now);
        OneBucketTouched@occupied(group.value);
      }
    }

    /** The group a response belongs to, remembering one the specification lacks. */
    method RecordGroupOf(op: string, f: Figures) returns (group: Option<string>)
      modifies this`learned
      ensures group == RecordGroup(old(View()), spec, op, f)
      ensures View() == old(View()).(learned := LearnedFrom(old(View()), spec, op, f))
    {
      group := f.group;
      if group.Some? {
        if !(op in spec && spec[op].group == group.value) {
          learned := learned[op := group.value];
        }
      } else if op in learned {
        group := Some(learned[op]);
      } else if op in spec {
        group := Some(spec[op].group);
      }
    }

    /** What dropping a reservation does. */
    method Release(r: Reservation)
      requires Valid()
      modifies this`history, buckets.Values
      ensures View() == GiveBack(old(View()), r)
      ensures history == old(history) + [Returned(r)]
    {
      PutBack(r);
      ghost var returned := View();
      history := history + [Returned(r)];
      assert View() == returned;
    }

    method PutBack(r: Reservation)
      requires Valid()
      modifies buckets.Values
      ensures View() == GiveBack(old(View()), r)
    {
      if r.group.Some? && r.group.value in buckets {
        buckets[r.group.value].GiveBack(r.tokens);
        OneBucketTouched(r.group.value);
      }
    }

    method ReportGroup(group: string, now: nat) returns (budget: RateBudget)
      requires Valid() && group in buckets
      modifies buckets[group]
      ensures View() == old(View()).(buckets := old(View()).buckets[group := Settled(old(View()).buckets[group], now)])
      ensures budget == BudgetOf(Settled(old(View()).buckets[group], now), now)
    {
      budget := buckets[group].ReportBudget(now);
      OneBucketTouched(group);
    }

    /** Every known group's budget as of `now`, in the order of their names. */
    method Budgets(now: nat) returns (budgets: seq<GroupBudget>)
      requires Valid()
      modifies buckets.Values
      ensures View() == SettleAll(old(View()), now)
      ensures InOrder(budgets)
      ensures forall b :: b in budgets <==> IsBudgetOf(b, old(View()).buckets, old(View()).buckets.Keys, now)
    {
      budgets := [];
      var todo := buckets.Keys;
      ghost var before, done: set<string> := View().buckets, {};
      while todo != {}
        invariant forall g :: g in buckets <==> g in todo || g in done
        invariant todo !! done
        invariant View() == LimiterState(SettleSome(before, done, now), learned)
        invariant InOrder(budgets)
        invariant forall b :: b in budgets <==> IsBudgetOf(b, before, done, now)
      {
        var g :| g in todo;
        var budget := ReportGroup(g, now);
        SettleOneMore(before, done, g, now);
        PlacedInOrder(GroupBudget(g, budget), budgets);
        budgets := Placed(GroupBudget(g, budget), budgets);
        todo, done := todo - {g}, done + {g};
      }
      assert done == before.Keys;
      AllSettled(old(View()), now);
    }
  }

  // ----- budgets in order -----

  datatype GroupBudget = GroupBudget(group: string, budget: RateBudget)

  predicate IsBudgetOf(b: GroupBudget, buckets: map<string, BucketState>, done: set<string>, now: nat) {
    b.group in buckets && b.group in done && b.budget == BudgetOf(Settled(buckets[b.group], now), now)
  }

  /** Names compare character by character, a shorter one before what it begins. */
  predicate Before(a: string, b: string) {
    b != "" && (a == "" || a[0] < b[0] || (a[0] == b[0] && Before(a[1..], b[1..])))
  }

  predicate InOrder(budgets: seq<GroupBudget>) {
    forall i, k :: 0 <= i < k < |budgets| ==> Before(budgets[i].group, budgets[k].group)
  }

  function Placed(b: GroupBudget, budgets: seq<GroupBudget>): seq<GroupBudget> {
    if budgets == [] then [b]
    else if Before(b.group, budgets[0].group) then [b] + budgets
    else [budgets[0]] + Placed(b, budgets[1..])
  }

  lemma {:induction false} Compare(a: string, b: string)
    ensures a == b || Before(a, b) || Before(b, a)
    ensures !(Before(a, b) && Before(b, a)) && !Before(a, a)
  {
    if a != "" && b != "" {
      Compare(a[1..], b[1..]);
      assert a == [a[0]] + a[1..] && b == [b[0]] + b[1..];
    }
    if a != "" {
      Compare(a[1..], a[1..]);
    }
  }

  lemma {:induction false} BeforeBoth(a: string, b: string, c: string)
    requires Before(a, b) && Before(b, c)
    ensures Before(a, c)
  {
    if a != "" && a[0] == b[0] && b[0] == c[0] {
      BeforeBoth(a[1..], b[1..], c[1..]);
    }
  }

  /** Placing keeps the order and adds the one element. */
  lemma {:induction false} PlacedInOrder(b: GroupBudget, budgets: seq<GroupBudget>)
    requires InOrder(budgets) && forall x <- budgets :: x.group != b.group
    ensures InOrder(Placed(b, budgets))
    ensures forall x :: x in Placed(b, budgets) <==> x == b || x in budgets
  {
    if budgets != [] {
      var first := budgets[0];
      assert first in budgets;
      Compare(b.group, first.group);
      if Before(b.group, first.group) {
        forall k | 0 < k < |budgets| ensures Before(b.group, budgets[k].group) {
          BeforeBoth(b.group, first.group, budgets[k].group);
        }
      } else {
        PlacedInOrder(b, budgets[1..]);
        forall x | x in Placed(b, budgets[1..]) ensures Before(first.group, x.group) {
        }
      }
    }
  }

  ghost function SettleSome(buckets: map<string, BucketState>, done: set<string>, now: nat): map<string, BucketState> {
    map g | g in buckets :: if g in done then Settled(buckets[g], now) else buckets[g]
  }

  lemma {:induction false} SettleOneMore(buckets: map<string, BucketState>, done: set<string>, g: string, now: nat)
    requires g in buckets && g !in done
    ensures SettleSome(buckets, done, now)[g := Settled(buckets[g], now)] == SettleSome(buckets, done + {g}, now)
    ensures SettleSome(buckets, done, now)[g] == buckets[g]
  {
  }

  lemma {:induction false} AllSettled(st: LimiterState, now: nat)
    ensures SettleSome(st.buckets, st.buckets.Keys, now) == SettleAll(st, now).buckets
  {
  }
}
