/** Every run of a caching client against a changing origin server, with any
    number of requests in the air and any interleaving of their steps. */
module ClientRuns {
  import opened Prelude
  import opened Headers
  import opened Cache
  import opened Exchange
  import opened Answers

  datatype Content = Content(status: nat, body: string)

  /** What the server currently serves under a key. */
  datatype Page = Page(content: Content, etag: Option<string>)

  /** The content an entity tag stands for. */
  type Tags = (CacheKey, string) -> Content

  datatype Request =
    | Sent(key: CacheKey, tag: Option<string>, stale: Option<Entry>)
    | Answered(key: CacheKey, tag: Option<string>, stale: Option<Entry>, response: Response, current: Content)
    | Finished

  /** What callers were told: hits, and answers resurrected by a 304 carrying `sent`. */
  datatype Output =
    | Hit(key: CacheKey, answer: Response, at: nat)
    | Resurrected(key: CacheKey, answer: Response, current: Content, sent: HeaderMap)

  /** `given`: contents the server sent in full, with
      their headers; `confirmed`: when a 200 or 304
      for a key was handled, and how long it was good for; `ideal`: the cache that never evicts. */
  datatype System = System(
    now: nat,
    store: Store,
    ideal: Store,
    pages: map<CacheKey, Page>,
    requests: seq<Request>,
    outputs: seq<Output>,
    given: set<(CacheKey, Content, HeaderMap)>,
    confirmed: set<(CacheKey, nat, int)>)

  datatype Step =
    | Tick(elapsed: nat)
    | Publish(key: CacheKey, page: Page)
    | Ask(key: CacheKey, callerTag: Option<string>)
    | AnswerInFull(i: nat, response: Response)
    | AnswerNotModified(i: nat, response: Response)
    | AnswerOther(i: nat, response: Response)
    | Lose(i: nat)
    | Handle(i: nat)

  const START := System(0, map[], map[], map[], [], [], {}, {})

  function ContentOf(r: Response): Content {
    Content(r.status, r.body)
  }

  /** A tag in a response stands for `content`. */
  predicate TagsContent(tags: Tags, key: CacheKey, etag: Option<string>, content: Content) {
    etag.Some? ==> tags(key, etag.value) == content
  }

  function Answer(s: System, i: nat, r: Response, current: Content): System
    requires i < |s.requests| && s.requests[i].Sent?
  {
    var q := s.requests[i];
    s.(requests := s.requests[i := Answered(q.key, q.tag, q.stale, r, current)])
  }

  function HandleAt(s: System, i: nat): System
    requires i < |s.requests| && s.requests[i].Answered?
  {
    var q := s.requests[i];
    var (effect, answer) := Finish(Some(q.key), q.stale, q.response, s.now);
    s.(store := Updated(s.store, q.key, effect, s.now),
       ideal := UpdatedIdeal(s.ideal, q.key, effect),
       requests := s.requests[i := Finished],
       outputs := if q.response.status == 304 && q.stale.Some?
                  then s.outputs + [Resurrected(q.key, answer, q.current, q.response.headers)] else s.outputs,
       confirmed := if q.response.status == 304 || IsSuccess(q.response.status)
                    then s.confirmed + {(q.key, s.now, Lifetime(q.response, s.now))} else s.confirmed)
  }

  function Next(tags: Tags, callersCondition: bool, s: System, step: Step): Option<System> {
    match step
    case Tick(elapsed) => Some(s.(now := s.now + elapsed))
    case Publish(key, page) =>
      if TagsContent(tags, key, page.etag, page.content) && IsSuccess(page.content.status)
      then Some(s.(pages := s.pages[key := page])) else None
    case Ask(key, callerTag) =>
      if callerTag.Some? && !callersCondition then None else
      var decision := Begin(s.store, Some(key), callerTag, s.now);
      Some(if decision.Serve? then s.(outputs := s.outputs + [Hit(key, decision.hit, s.now)])
           else s.(requests := s.requests + [Sent(key, decision.tag, decision.stale)]))
    case AnswerInFull(i, r) =>
      if i < |s.requests| && s.requests[i].Sent? && s.requests[i].key in s.pages && Proper(r.headers)
         && ContentOf(r) == s.pages[s.requests[i].key].content
         && Get(r.headers, "etag") == s.pages[s.requests[i].key].etag
      then Some(Answer(s, i, r, ContentOf(r)).(given := s.given + {(s.requests[i].key, ContentOf(r), r.headers)}))
      else None
    case AnswerNotModified(i, r) =>
      if i < |s.requests| && s.requests[i].Sent? && s.requests[i].key in s.pages && Proper(r.headers) && r.status == 304
         && s.requests[i].tag.Some? && s.requests[i].tag == s.pages[s.requests[i].key].etag
         && TagsContent(tags, s.requests[i].key, Get(r.headers, "etag"), s.pages[s.requests[i].key].content)
      then Some(Answer(s, i, r, s.pages[s.requests[i].key].content)) else None
    case AnswerOther(i, r) =>
      if i < |s.requests| && s.requests[i].Sent? && r.status != 304 && !IsSuccess(r.status)
      then Some(Answer(s, i, r, ContentOf(r))) else None
    case Lose(i) =>
      if i < |s.requests| && s.requests[i].Sent? then Some(s.(requests := s.requests[i := Finished])) else None
    case Handle(i) =>
      if i < |s.requests| && s.requests[i].Answered? then Some(HandleAt(s, i)) else None
  }

  function Run(tags: Tags, callersCondition: bool, s: System, steps: seq<Step>): Option<System>
    decreases |steps|
  {
    if steps == [] then Some(s)
    else var next := Next(tags, callersCondition, s, steps[0]);
         if next.None? then None else Run(tags, callersCondition, next.value, steps[1..])
  }

  ghost predicate Reachable(tags: Tags, callersCondition: bool, s: System) {
    exists steps :: Run(tags, callersCondition, START, steps) == Some(s)
  }

  // ----- coherence -----

  /** A 200 or 304 for the key that was handled less than a day before `at` is good till then. */
  ghost predicate StillGood(s: System, key: CacheKey, at: nat) {
    exists c, lifetime :: (key, c, lifetime) in s.confirmed
      && c <= at && at - c < lifetime && at - c < 86_400_000_000_000
  }

  /** The server sent the content in full for the key, with these headers as far as they describe it. */
  ghost predicate SentInFull(s: System, key: CacheKey, content: Content, headers: HeaderMap) {
    exists h :: (key, content, h) in s.given && DescribedAlike(headers, h)
  }

  ghost predicate DescribedAlike(a: HeaderMap, b: HeaderMap) {
    forall name :: OfTheBody(name) ==> Same(name, a, b)
  }

  predicate Marked(answer: Response, how: string) {
    MARKER in answer.headers && answer.headers[MARKER] == [how]
  }

  ghost predicate OutputIsRight(s: System, o: Output) {
    && SentInFull(s, o.key, ContentOf(o.answer), o.answer.headers)
    && Marked(o.answer, if o.Hit? then "hit" else "revalidated")
    && (o.Hit? ==> NoBudget(o.answer.headers) && StillGood(s, o.key, o.at))
    && (o.Resurrected? ==>
          && ContentOf(o.answer) == o.current
          && (forall name :: OfTheMoment(name) ==> Same(name, o.answer.headers, o.sent))
          && (forall name :: name in o.sent && name != MARKER && !OfTheBody(name) ==>
                Same(name, o.answer.headers, o.sent)))
  }

  /** Every answer from the cache is right, and every stored tag stands for its stored body. */
  ghost predicate Coherent(tags: Tags, s: System) {
    && (forall o :: o in s.outputs ==> OutputIsRight(s, o))
    && (forall k :: k in s.store ==> TagsContent(tags, k, s.store[k].etag, Content(s.store[k].status, s.store[k].body)))
  }

  // ----- what every step keeps -----

  ghost predicate EntryIsRight(tags: Tags, s: System, key: CacheKey, e: Entry) {
    && SentInFull(s, key, Content(e.status, e.body), e.headers)
    && TagsContent(tags, key, e.etag, Content(e.status, e.body))
    && NoBudget(e.headers)
    && (e.expiresAt.Some? ==>
          exists c, lifetime :: (key, c, lifetime) in s.confirmed && c <= s.now
            && e.expiresAt.value <= c + lifetime && e.expiresAt.value <= c + 86_400_000_000_000)
  }

  ghost predicate RequestIsRight(tags: Tags, s: System, q: Request) {
    && (q.Sent? || q.Answered? ==>
          && (q.stale.Some? ==> EntryIsRight(tags, s, q.key, q.stale.value))
          && q.tag == (if q.stale.Some? then q.stale.value.etag else None))
    && (q.Answered? && q.response.status == 304 ==>
          && Proper(q.response.headers)
          && q.tag.Some? && tags(q.key, q.tag.value) == q.current
          && TagsContent(tags, q.key, Get(q.response.headers, "etag"), q.current))
    && (q.Answered? && IsSuccess(q.response.status) ==>
          && (q.key, ContentOf(q.response), q.response.headers) in s.given
          && TagsContent(tags, q.key, Get(q.response.headers, "etag"), ContentOf(q.response)))
  }

  ghost predicate Right(tags: Tags, s: System) {
    && (forall k :: k in s.ideal ==> EntryIsRight(tags, s, k, s.ideal[k]))
    && Tracks(s.store, s.ideal, s.now)
    && (forall q :: q in s.requests ==> RequestIsRight(tags, s, q))
    && (forall o :: o in s.outputs ==> OutputIsRight(s, o))
    && (forall k :: k in s.pages ==>
          TagsContent(tags, k, s.pages[k].etag, s.pages[k].content) && IsSuccess(s.pages[k].content.status))
  }

  /** What was right stays right as time passes and more is learnt. */
  lemma {:induction false} RightPersists(tags: Tags, s: System, n: System)
    requires s.now <= n.now && s.given <= n.given && s.confirmed <= n.confirmed
    ensures forall k, e :: EntryIsRight(tags, s, k, e) ==> EntryIsRight(tags, n, k, e)
    ensures forall q :: RequestIsRight(tags, s, q) ==> RequestIsRight(tags, n, q)
    ensures forall o :: OutputIsRight(s, o) ==> OutputIsRight(n, o)
  {
  }

  /** Neither stripping nor a 304 touches what describes a body. */
  lemma {:induction false} StillDescribed(stored: HeaderMap, newer: HeaderMap, h: HeaderMap)
    ensures DescribedAlike(stored, h) ==>
              && DescribedAlike(Merged(stored, newer), h)
              && DescribedAlike(Stripped(stored), h)
              && DescribedAlike(Stripped(Merged(stored, newer)), h)
  {
    forall name | OfTheBody(name) ensures Same(name, Stripped(stored), stored)
                                          && Same(name, Stripped(Merged(stored, newer)), stored)
                                          && Same(name, Merged(stored, newer), stored) {
      BudgetNamesDescribeNoBody(name);
      LaidOver(stored, newer, name);
    }
  }

  lemma {:induction false} SentInFullStill(s: System, key: CacheKey, content: Content, stored: HeaderMap,
                                           newer: HeaderMap)
    requires SentInFull(s, key, content, stored)
    ensures SentInFull(s, key, content, Merged(stored, newer))
    ensures SentInFull(s, key, content, Stripped(stored))
    ensures SentInFull(s, key, content, Stripped(Merged(stored, newer)))
  {
    var h :| (key, content, h) in s.given && DescribedAlike(stored, h);
    StillDescribed(stored, newer, h);
  }

  lemma {:induction false} MarkedStill(s: System, key: CacheKey, content: Content, headers: HeaderMap,
                                       marker: seq<string>)
    requires SentInFull(s, key, content, headers)
    ensures SentInFull(s, key, content, headers[MARKER := marker])
  {
    var h :| (key, content, h) in s.given && DescribedAlike(headers, h);
    assert DescribedAlike(headers[MARKER := marker], h);
  }

  /** What an answer writes to the cache is right once its handling is noted. */
  lemma {:induction false} WrittenIsRight(tags: Tags, s: System, q: Request)
    requires q.Answered? && RequestIsRight(tags, s, q)
    requires (q.key, s.now, Lifetime(q.response, s.now)) in s.confirmed
    ensures var effect := Finish(Some(q.key), q.stale, q.response, s.now).0;
            effect.Write? ==> EntryIsRight(tags, s, q.key, effect.e)
  {
    if q.response.status == 304 && q.stale.Some? {
      var e := q.stale.value;
      SentInFullStill(s, q.key, Content(e.status, e.body), e.headers, q.response.headers);
    } else if IsSuccess(q.response.status) {
      assert DescribedAlike(q.response.headers, q.response.headers);
      SentInFullStill(s, q.key, ContentOf(q.response), q.response.headers, map[]);
    }
  }

  lemma {:induction false} MarkerIsNoBudget()
    ensures !IsBudget(CACHE_STATUS_HEADER)
  {
    assert CACHE_STATUS_HEADER[..|"x-esi-error-limit-"|][6] == 'c';
    assert CACHE_STATUS_HEADER[..|"x-ratelimit-"|][2] == 'e';
  }

  /** The answer to a 304: the page as it was sent, and the 304's other headers. */
  lemma {:induction false} ResurrectedIsRight(tags: Tags, s: System, q: Request)
    requires q.Answered? && RequestIsRight(tags, s, q) && q.response.status == 304 && q.stale.Some?
    ensures OutputIsRight(s, Resurrected(q.key, Finish(Some(q.key), q.stale, q.response, s.now).1, q.current,
                                         q.response.headers))
  {
    var e := q.stale.value;
    var merged := Merged(e.headers, q.response.headers);
    SentInFullStill(s, q.key, Content(e.status, e.body), e.headers, q.response.headers);
    MarkedStill(s, q.key, Content(e.status, e.body), merged, ["revalidated"]);
    MarkerIsNoBudget();
    forall name | OfTheMoment(name) ensures Same(name, merged[MARKER := ["revalidated"]], q.response.headers) {
      MergeIsPerName(e.headers, q.response.headers, name);
    }
  }

  lemma {:induction false} UpdatedTracks(s: System, key: CacheKey, effect: Effect)
    requires Tracks(s.store, s.ideal, s.now)
    ensures Tracks(Updated(s.store, key, effect, s.now), UpdatedIdeal(s.ideal, key, effect), s.now)
  {
    if effect.Write? {
      PutTracks(s.store, s.ideal, key, effect.e, s.now);
    }
  }

  lemma {:induction false} HandleStaysRight(tags: Tags, s: System, i: nat)
    requires Right(tags, s) && i < |s.requests| && s.requests[i].Answered?
    ensures Right(tags, HandleAt(s, i))
  {
    var q, n := s.requests[i], HandleAt(s, i);
    assert q in s.requests;
    RightPersists(tags, s, n);
    var effect := Finish(Some(q.key), q.stale, q.response, s.now).0;
    UpdatedTracks(s, q.key, effect);
    if effect.Write? {
      WrittenIsRight(tags, n, q);
    }
    HandledOutputsAreRight(tags, s, i);
    assert forall r :: r in n.requests ==> r == Finished || r in s.requests;
  }

  lemma {:induction false} HandledOutputsAreRight(tags: Tags, s: System, i: nat)
    requires Right(tags, s) && i < |s.requests| && s.requests[i].Answered?
    ensures forall o :: o in HandleAt(s, i).outputs ==> OutputIsRight(HandleAt(s, i), o)
  {
    var q, n := s.requests[i], HandleAt(s, i);
    assert q in s.requests;
    RightPersists(tags, s, n);
    if q.response.status == 304 && q.stale.Some? {
      ResurrectedIsRight(tags, n, q);
    }
  }

  lemma {:induction false} AnswerStaysRight(tags: Tags, s: System, i: nat, r: Response, current: Content, n: System)
    requires Right(tags, s) && i < |s.requests| && s.requests[i].Sent?
    requires n == Answer(s, i, r, current).(given := n.given) && s.given <= n.given
    requires RequestIsRight(tags, n, n.requests[i])
    ensures Right(tags, n)
  {
    RightPersists(tags, s, n);
  }

  lemma {:induction false} AskStaysRight(tags: Tags, s: System, key: CacheKey)
    requires Right(tags, s)
    ensures Right(tags, Next(tags, false, s, Ask(key, None)).value)
  {
    RightPersists(tags, s, Next(tags, false, s, Ask(key, None)).value);
    if key in s.store && IsFresh(s.store[key], s.now) {
      HitIsRight(tags, s, key);
    }
  }

  lemma {:induction false} NextStaysRight(tags: Tags, s: System, step: Step)
    requires Right(tags, s) && Next(tags, false, s, step).Some?
    ensures Right(tags, Next(tags, false, s, step).value)
  {
    var n := Next(tags, false, s, step).value;
    RightPersists(tags, s, n);
    match step
    case Tick(elapsed) => TimeTracks(s.store, s.ideal, s.now, n.now);
    case Publish(key, page) =>
    case Ask(key, callerTag) => AskStaysRight(tags, s, key);
    case AnswerInFull(i, r) =>
      assert s.requests[i] in s.requests;
      AnswerStaysRight(tags, s, i, r, ContentOf(r), n);
    case AnswerNotModified(i, r) =>
      assert s.requests[i] in s.requests;
      AnswerStaysRight(tags, s, i, r, s.pages[s.requests[i].key].content, n);
    case AnswerOther(i, r) =>
      assert s.requests[i] in s.requests;
      AnswerStaysRight(tags, s, i, r, ContentOf(r), n);
    case Lose(i) =>
    case Handle(i) => HandleStaysRight(tags, s, i);
  }

  lemma {:induction false} HitIsRight(tags: Tags, s: System, key: CacheKey)
    requires Right(tags, s) && key in s.store && IsFresh(s.store[key], s.now)
    ensures OutputIsRight(s, Hit(key, ToHit(s.store[key]), s.now))
  {
    var e := s.store[key];
    MarkerIsNoBudget();
    assert EntryIsRight(tags, s, key, s.ideal[key]);
    SentInFullStill(s, key, Content(e.status, e.body), e.headers, map[]);
    MarkedStill(s, key, Content(e.status, e.body), Stripped(e.headers), ["hit"]);
  }

  lemma {:induction false} RunStaysRight(tags: Tags, s: System, steps: seq<Step>)
    requires Right(tags, s) && Run(tags, false, s, steps).Some?
    ensures Right(tags, Run(tags, false, s, steps).value)
    decreases |steps|
  {
    if steps != [] {
      NextStaysRight(tags, s, steps[0]);
      RunStaysRight(tags, Next(tags, false, s, steps[0]).value, steps[1..]);
    }
  }

  lemma {:induction false} ReachableIsRight(tags: Tags, s: System)
    requires Reachable(tags, false, s)
    ensures Right(tags, s) && Coherent(tags, s)
    ensures forall k :: k in s.store ==> NoBudget(s.store[k].headers)
  {
    var steps :| Run(tags, false, START, steps) == Some(s);
    RunStaysRight(tags, START, steps);
    forall k | k in s.store ensures EntryIsRight(tags, s, k, s.store[k]) {
      assert k in s.ideal;
    }
  }

  /** A request goes out exactly when not even a cache that never evicts could
      have answered it. */
  lemma {:induction false} AsksOnlyWhenNothingIsFresh(tags: Tags, s: System, key: CacheKey)
    requires Reachable(tags, false, s)
    ensures Begin(s.store, Some(key), None, s.now).Send? <==> !(key in s.ideal && IsFresh(s.ideal[key], s.now))
    ensures Begin(s.store, Some(key), None, s.now).Serve? ==>
              Begin(s.store, Some(key), None, s.now) == Begin(s.ideal, Some(key), None, s.now)
  {
    ReachableIsRight(tags, s);
  }

  // ----- a caller's own tag -----

  /** A bare answer in full, and a bare 304, carrying nothing but a tag. */
  function FullAnswer(content: Content, tag: string): Response {
    Response(content.status, map["etag" := [tag]], content.body, None, None)
  }

  const BARE_304 := Response(304, map[], "", None, None)

  /** A stored page with tag `t1`, never fresh. */
  lemma {:induction false} StoredOnce(tags: Tags, key: CacheKey, t1: string) returns (steps: seq<Step>, s: System)
    requires IsSuccess(tags(key, t1).status)
    ensures Run(tags, true, START, steps) == Some(s)
    ensures key in s.store && !IsFresh(s.store[key], s.now)
    ensures Content(s.store[key].status, s.store[key].body) == tags(key, t1)
    ensures s.requests == [Finished]
  {
    var c := tags(key, t1);
    var publish, ask := Publish(key, Page(c, Some(t1))), Ask(key, None);
    var answer, handle := AnswerInFull(0, FullAnswer(c, t1)), Handle(0);
    var s1 := Next(tags, true, START, publish).value;
    var s2 := Next(tags, true, s1, ask).value;
    assert s2.requests == [Sent(key, None, None)];
    var s3 := Next(tags, true, s2, answer).value;
    assert s3.requests == [Answered(key, None, None, FullAnswer(c, t1), c)];
    s := Next(tags, true, s3, handle).value;
    steps := [publish, ask, answer, handle];
    assert Run(tags, true, s3, [handle]) == Some(s);
    assert Run(tags, true, s2, [answer, handle]) == Some(s);
    assert Run(tags, true, s1, [ask, answer, handle]) == Some(s);
  }

  /** The caller's tag `t2` is current, so the server answers 304, and the old
      body is passed off as the new one. */
  lemma {:induction false} WrongBody(tags: Tags, key: CacheKey, t2: string, s: System)
    returns (steps: seq<Step>, n: System)
    requires IsSuccess(tags(key, t2).status)
    requires key in s.store && !IsFresh(s.store[key], s.now) && s.requests == [Finished]
    requires Content(s.store[key].status, s.store[key].body) != tags(key, t2)
    ensures Run(tags, true, s, steps) == Some(n)
    ensures !Coherent(tags, n)
  {
    var c := tags(key, t2);
    var e := s.store[key];
    var publish, ask := Publish(key, Page(c, Some(t2))), Ask(key, Some(t2));
    var answer, handle := AnswerNotModified(1, BARE_304), Handle(1);
    var s1 := Next(tags, true, s, publish).value;
    var s2 := Next(tags, true, s1, ask).value;
    assert s2.requests == [Finished, Sent(key, Some(t2), Some(e))];
    var s3 := Next(tags, true, s2, answer).value;
    assert s3.requests == [Finished, Answered(key, Some(t2), Some(e), BARE_304, c)];
    n := Next(tags, true, s3, handle).value;
    steps := [publish, ask, answer, handle];
    assert Run(tags, true, s3, [handle]) == Some(n);
    assert Run(tags, true, s2, [answer, handle]) == Some(n);
    assert Run(tags, true, s1, [ask, answer, handle]) == Some(n);
    var o := n.outputs[|n.outputs| - 1];
    assert o in n.outputs && !OutputIsRight(n, o);
  }

  lemma {:induction false} RunAppend(tags: Tags, callers: bool, s: System, first: seq<Step>, second: seq<Step>)
    requires Run(tags, callers, s, first).Some?
    ensures Run(tags, callers, s, first + second) == Run(tags, callers, Run(tags, callers, s, first).value, second)
    decreases |first|
  {
    if first == [] {
      assert first + second == second;
    } else {
      assert (first + second)[1..] == first[1..] + second;
      RunAppend(tags, callers, Next(tags, callers, s, first[0]).value, first[1..], second);
    }
  }

  /** The cache is coherent in every run exactly when callers set no
      `If-None-Match` of their own, given any two pages a server can tell apart. */
  lemma {:induction false} CoherentExactly(tags: Tags, callersCondition: bool, key: CacheKey, t1: string, t2: string)
    requires tags(key, t1) != tags(key, t2) && IsSuccess(tags(key, t1).status) && IsSuccess(tags(key, t2).status)
    ensures (forall s :: Reachable(tags, callersCondition, s) ==> Coherent(tags, s)) <==> !callersCondition
  {
    if callersCondition {
      var first, s := StoredOnce(tags, key, t1);
      var second, n := WrongBody(tags, key, t2, s);
      RunAppend(tags, true, START, first, second);
      assert Reachable(tags, true, n);
    } else {
      forall s | Reachable(tags, callersCondition, s) ensures Coherent(tags, s) {
        ReachableIsRight(tags, s);
      }
    }
  }

  // ----- one answer at a time -----

  /** Pages have the tags that stand for them, and a 304 was sent for a tag that stood for the page. */
  ghost predicate HonestServer(tags: Tags, s: System) {
    && (forall k :: k in s.pages ==>
          TagsContent(tags, k, s.pages[k].etag, s.pages[k].content) && IsSuccess(s.pages[k].content.status))
    && (forall q :: q in s.requests && q.Answered? && q.response.status == 304 ==>
          q.tag.Some? && tags(q.key, q.tag.value) == q.current)
  }

  lemma {:induction false} NextStaysHonest(tags: Tags, callersCondition: bool, s: System, step: Step)
    requires HonestServer(tags, s) && Next(tags, callersCondition, s, step).Some?
    ensures HonestServer(tags, Next(tags, callersCondition, s, step).value)
  {
  }

  lemma {:induction false} RunStaysHonest(tags: Tags, callersCondition: bool, s: System, steps: seq<Step>)
    requires HonestServer(tags, s) && Run(tags, callersCondition, s, steps).Some?
    ensures HonestServer(tags, Run(tags, callersCondition, s, steps).value)
    decreases |steps|
  {
    if steps != [] {
      NextStaysHonest(tags, callersCondition, s, steps[0]);
      RunStaysHonest(tags, callersCondition, Next(tags, callersCondition, s, steps[0]).value, steps[1..]);
    }
  }

  /** Whatever tags callers set, an answer resurrected by a 304 has the server's
      current status and body if and only if the tag it was asked with stands for
      what the stale entry holds. */
  lemma {:induction false} ResurrectedExactly(tags: Tags, callersCondition: bool, s: System, i: nat)
    requires Reachable(tags, callersCondition, s) && i < |s.requests| && s.requests[i].Answered?
    requires s.requests[i].response.status == 304 && s.requests[i].stale.Some?
    ensures var q, n := s.requests[i], HandleAt(s, i);
            && n.outputs != [] && q.tag.Some?
            && (var o := n.outputs[|n.outputs| - 1];
                && o.Resurrected? && o.key == q.key && o.current == q.current
                && (ContentOf(o.answer) == o.current <==>
                      tags(q.key, q.tag.value) == Content(q.stale.value.status, q.stale.value.body)))
  {
    var steps :| Run(tags, callersCondition, START, steps) == Some(s);
    RunStaysHonest(tags, callersCondition, START, steps);
    assert s.requests[i] in s.requests;
  }
}
