/** What a response says about its group's limit, read from its headers. */
module ResponseFigures {
  import opened Prelude
  import opened Text
  import opened LimitHeader
  import opened Headers
  import opened Cache
  import opened BucketModel
  import opened LimiterModel

  function RateHeadersOf(r: Response): RateHeaders {
    RateHeaders(r.status, Get(r.headers, "x-ratelimit-group"), Get(r.headers, "x-ratelimit-limit"),
                Get(r.headers, "x-ratelimit-remaining"), Get(r.headers, "x-ratelimit-used"),
                Get(r.headers, "retry-after"))
  }

  function FiguresOf(answer: Option<Response>): Option<Figures> {
    if answer.Some? then Some(Read(RateHeadersOf(answer.value))) else None
  }

  // ----- what is written is read -----

  predicate Blank(s: string) {
    forall c <- s :: c == ' ' || c == '\t'
  }

  /** The first value of the header is `text`, whatever the space around it; without
      a text the header is absent. */
  ghost predicate Says(h: HeaderMap, name: string, text: Option<string>) {
    match text
    case None => name !in h
    case Some(t) => exists before, after ::
      Blank(before) && Blank(after) && name in h && h[name] != [] && h[name][0] == before + t + after
  }

  function Printed(n: Option<nat>): Option<string> {
    if n.Some? then Some(Print(n.value)) else None
  }

  lemma {:induction false} BlankIsSpace(s: string)
    requires Blank(s)
    ensures AllSpace(s) && Trim(s) == ""
  {
    forall i | 0 <= i < |s| ensures IsSpace(s[i]) {
      assert s[i] in s;
    }
    TrimBlank(s);
  }

  lemma {:induction false} TrimBlank(s: string)
    requires AllSpace(s)
    ensures TrimStart(s) == ""
  {
    if s != "" {
      TrimBlank(s[1..]);
    }
  }

  /** The text comes back trimmed. */
  lemma {:induction false} SaidIsTrimmed(h: HeaderMap, name: string, text: Option<string>)
    requires Says(h, name, text)
    requires text.Some? && text.value != "" ==>
               !IsSpace(text.value[0]) && !IsSpace(text.value[|text.value| - 1])
    ensures Get(h, name).Some? == text.Some?
    ensures text.Some? ==> Trim(Get(h, name).value) == text.value
  {
    if text.Some? {
      var before, after :| Blank(before) && Blank(after) && h[name][0] == before + text.value + after;
      BlankIsSpace(before);
      BlankIsSpace(after);
      if text.value == "" {
        assert before + text.value + after == before + after;
        assert Blank(before + after);
        BlankIsSpace(before + after);
      } else {
        TrimInner(before, text.value, after);
      }
    }
  }

  lemma {:induction false} SaidNumber(h: HeaderMap, name: string, n: Option<nat>, bound: nat)
    requires Says(h, name, Printed(n))
    ensures Number(Get(h, name), bound) == if n.Some? && n.value < bound then n else None
  {
    if n.Some? {
      assert IsDigit(Print(n.value)[0]) && IsDigit(Print(n.value)[|Print(n.value)| - 1]);
      PrintedValue(n.value);
    }
    SaidIsTrimmed(h, name, Printed(n));
  }

  /** The server's count of what is left and of what this response cost. */
  lemma {:induction false} CountsAreRead(r: Response, remaining: Option<nat>, used: Option<nat>)
    requires Says(r.headers, "x-ratelimit-remaining", Printed(remaining))
    requires Says(r.headers, "x-ratelimit-used", Printed(used))
    ensures var f := FiguresOf(Some(r)).value;
            && f.remaining == (if remaining.Some? && remaining.value < 0x1_0000_0000 then remaining else None)
            && f.used == (if used.Some? && used.value < 0x1_0000_0000 then used else None)
  {
    SaidNumber(r.headers, "x-ratelimit-remaining", remaining, U32_BOUND);
    SaidNumber(r.headers, "x-ratelimit-used", used, U32_BOUND);
  }

  /** A 429, and nothing else, holds its group, for the seconds it says or else for sixty. */
  lemma {:induction false} HoldIsRead(r: Response, seconds: Option<nat>)
    requires Says(r.headers, "retry-after", Printed(seconds))
    ensures FiguresOf(Some(r)).value.hold ==
              if r.status != 429 then None
              else if seconds.Some? && seconds.value < 0x1_0000_0000_0000_0000 then Some(seconds.value * 1_000_000_000)
              else Some(60_000_000_000)
  {
    SaidNumber(r.headers, "retry-after", seconds, U64_BOUND);
  }

  /** The same sixty seconds if what it says is no number, a date for instance. */
  lemma {:induction false} UnreadableHold(r: Response, text: string)
    requires r.status == 429 && Says(r.headers, "retry-after", Some(text))
    requires text != "" ==> !IsSpace(text[0]) && !IsSpace(text[|text| - 1])
    requires text == "" || (text[0] != '+' && exists c <- text :: !('0' <= c <= '9'))
    ensures FiguresOf(Some(r)).value.hold == Some(60_000_000_000)
  {
    SaidIsTrimmed(r.headers, "retry-after", Some(text));
    if text != "" {
      var c :| c in text && !('0' <= c <= '9');
      var i :| 0 <= i < |text| && text[i] == c;
    }
  }

  lemma {:induction false} GroupIsRead(r: Response, group: Option<string>)
    requires Says(r.headers, "x-ratelimit-group", group)
    requires group.Some? && group.value != "" ==>
               !IsSpace(group.value[0]) && !IsSpace(group.value[|group.value| - 1])
    ensures FiguresOf(Some(r)).value.group == if group == Some("") then None else group
  {
    SaidIsTrimmed(r.headers, "x-ratelimit-group", group);
  }

  /** A limit as the server writes it: tokens, and a count of seconds, minutes or hours. */
  datatype Quota = Quota(tokens: nat, count: nat, unit: string)

  function Written(q: Quota, before: string, after: string): string {
    Print(q.tokens) + before + "/" + (after + Print(q.count) + q.unit)
  }

  predicate IsQuota(q: Quota) {
    q.tokens < 0x1_0000_0000 && q.unit in {"s", "m", "h"} && 0 < q.count < 0x10_0000_0000_0000
  }

  function Nanoseconds(q: Quota): nat {
    q.count * match q.unit case "s" => 1_000_000_000 case "m" => 60_000_000_000 case _ => 3_600_000_000_000
  }

  lemma {:induction false} LimitParses(q: Quota, before: string, after: string)
    requires AllSpace(before) && AllSpace(after) && IsQuota(q)
    ensures var parsed := ParseLimit(Written(q, before, after));
            parsed.Some? && parsed.value.0 == q.tokens && parsed.value.1 * 1_000_000_000 == Nanoseconds(q) > 0
  {
    assert Written(q, before, after) == "" + Print(q.tokens) + before + "/" + (after + Print(q.count) + q.unit + "");
    LimitRoundTrip(q.tokens, q.count, q.unit, "", before, after, "");
  }

  lemma {:induction false} QuotaIsRead(r: Response, q: Quota, before: string, after: string)
    requires Blank(before) && Blank(after) && IsQuota(q)
    requires Says(r.headers, "x-ratelimit-limit", Some(Written(q, before, after)))
    ensures Nanoseconds(q) > 0 && FiguresOf(Some(r)).value.limit == Some((q.tokens, Nanoseconds(q)))
  {
    var text := Written(q, before, after);
    BlankIsSpace(before);
    BlankIsSpace(after);
    assert IsDigit(Print(q.tokens)[0]) && text[0] == Print(q.tokens)[0];
    assert text[|text| - 1] == q.unit[0];
    SaidIsTrimmed(r.headers, "x-ratelimit-limit", Some(text));
    LimitParses(q, before, after);
  }

  /** What a server says of its group's limit. */
  datatype Statement = Statement(
    group: Option<string>,
    quota: Option<Quota>,
    remaining: Option<nat>,
    used: Option<nat>,
    retryAfter: Option<nat>)

  /** Numbers that fit their types, a unit there is, and a group's name without space around it. */
  predicate Sayable(s: Statement) {
    && (s.group.Some? ==> s.group.value != "" && !IsSpace(s.group.value[0])
                          && !IsSpace(s.group.value[|s.group.value| - 1]))
    && (s.quota.Some? ==> IsQuota(s.quota.value))
    && (s.remaining.Some? ==> s.remaining.value < 0x1_0000_0000)
    && (s.used.Some? ==> s.used.value < 0x1_0000_0000)
    && (s.retryAfter.Some? ==> s.retryAfter.value < 0x1_0000_0000_0000_0000)
  }

  /** Each part is under its own header, with any space around it. */
  ghost predicate Carries(h: HeaderMap, s: Statement, before: string, after: string) {
    && Blank(before) && Blank(after)
    && Says(h, "x-ratelimit-group", s.group)
    && Says(h, "x-ratelimit-limit", if s.quota.Some? then Some(Written(s.quota.value, before, after)) else None)
    && Says(h, "x-ratelimit-remaining", Printed(s.remaining))
    && Says(h, "x-ratelimit-used", Printed(s.used))
    && Says(h, "retry-after", Printed(s.retryAfter))
  }

  /** Whatever a server can say is read as it was meant, each figure for itself. */
  lemma {:induction false} StatementRoundTrip(r: Response, s: Statement, before: string, after: string)
    requires Sayable(s) && Carries(r.headers, s, before, after)
    ensures var f := FiguresOf(Some(r)).value;
            && f.group == s.group && f.remaining == s.remaining && f.used == s.used
            && f.limit == (if s.quota.None? then None else Some((s.quota.value.tokens, Nanoseconds(s.quota.value))))
            && f.hold == (if r.status != 429 then None
                          else if s.retryAfter.Some? then Some(s.retryAfter.value * 1_000_000_000)
                          else Some(60_000_000_000))
  {
    GroupIsRead(r, s.group);
    CountsAreRead(r, s.remaining, s.used);
    HoldIsRead(r, s.retryAfter);
    if s.quota.Some? {
      QuotaIsRead(r, s.quota.value, before, after);
    }
  }

  // ----- and counted -----

  /** A response of a group with a bucket: its cost is a spend of now, its figure, at
      most the maximum, replaces the one before, a 429 holds the group for its delay or
      longer, and a limit takes the place of the old one, even for this response. */
  lemma {:induction false} AnswerIsCounted(st: LimiterState, spec: SpecTable, op: string, r: Response, now: nat,
                                           group: string, remaining: nat, used: nat)
    requires GroupOf(st, spec, op) == Some(group) && group in st.buckets && "x-ratelimit-group" !in r.headers
    requires Says(r.headers, "x-ratelimit-remaining", Some(Print(remaining))) && remaining < 0x1_0000_0000
    requires Says(r.headers, "x-ratelimit-used", Some(Print(used))) && 0 < used < 0x1_0000_0000
    ensures var limit := FiguresOf(Some(r)).value.limit;
            var (max, window) := if limit.Some? then limit.value
                                 else (st.buckets[group].maxTokens, st.buckets[group].window);
            var b := RecordResponse(st, spec, op, FiguresOf(Some(r)).value, now).buckets[group];
            && b.observed == Some(Observation(Min(remaining, max), now)) && (b.maxTokens, b.window) == (max, window)
            && b.spends != [] && b.spends[|b.spends| - 1] == Spend(now, used)
            && b.inFlight == st.buckets[group].inFlight
            && (r.status == 429 ==> b.blockedUntil.Some?)
  {
    CountsAreRead(r, Some(remaining), Some(used));
    var f := FiguresOf(Some(r)).value;
    RecordedShape(st.buckets[group], f.limit, f.used, f.remaining, f.hold, now);
    var b := st.buckets[group];
    var limited := if f.limit.Some? then b.(maxTokens := f.limit.value.0, window := f.limit.value.1) else b;
    ReleaseForgets(DropStale(LiftHold(limited, now), now), None, now);
  }

  // ----- and waited for -----

  /** The delay a 429 asks for: the seconds it says, if that is a number, else sixty. */
  function Delay(seconds: Option<nat>): nat {
    if seconds.Some? && seconds.value < 0x1_0000_0000_0000_0000 then seconds.value * 1_000_000_000 else 60_000_000_000
  }

  /** Nothing of the group is let in before the delay is over, whatever happens meanwhile. */
  lemma {:induction false} DelayIsHonoured(spec: SpecTable, m: Machine, op: string, r: Response, seconds: Option<nat>,
                                           meanwhile: seq<Step>, later: string)
    requires r.status == 429 && Says(r.headers, "retry-after", Printed(seconds))
    requires RecordBucket(m.limiter, spec, op, FiguresOf(Some(r)).value).Some?
    ensures var f := FiguresOf(Some(r)).value;
            var n := Run(spec, Next(spec, m, Step.Response(op, f)), meanwhile);
            var result := Poll(n.limiter, spec, later, n.now).1;
            result.Admitted? && result.reservation.group == RecordGroup(m.limiter, spec, op, f) ==>
              n.now >= m.now + Delay(seconds)
  {
    HoldIsRead(r, seconds);
    HoldIsHonoured(spec, m, op, RateHeadersOf(r), meanwhile, later);
  }

  /** Once it is over, and nothing else was heard, a request of the group is let in exactly
      when what is not spent within the window, or reserved, covers a worst case. */
  lemma {:induction false} DelayIsOver(spec: SpecTable, m: Machine, op: string, r: Response, seconds: Option<nat>,
                                       later: string, t: nat)
    requires r.status == 429 && Says(r.headers, "retry-after", Printed(seconds)) && t >= m.now + Delay(seconds)
    requires RecordBucket(m.limiter, spec, op, FiguresOf(Some(r)).value).Some?
    requires var b := RecordBucket(m.limiter, spec, op, FiguresOf(Some(r)).value).value;
             WellFormed(b, m.now) && (b.blockedUntil.Some? ==> t >= b.blockedUntil.value)
    requires GroupOf(Next(spec, m, Step.Response(op, FiguresOf(Some(r)).value)).limiter, spec, later)
          == RecordGroup(m.limiter, spec, op, FiguresOf(Some(r)).value)
    ensures var f := FiguresOf(Some(r)).value;
            Poll(Next(spec, m, Step.Response(op, f)).limiter, spec, later, t).1.Admitted? <==>
              CoversAfter(RecordBucket(m.limiter, spec, op, f).value, f, m.now, t)
  {
    HoldIsRead(r, seconds);
    HoldIsLifted(spec, m, op, FiguresOf(Some(r)).value, later, t);
  }
}
