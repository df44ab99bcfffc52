/** In which order callers see the editions of a page, when each request runs on
    its own and when requests for one key overlap. */
module CacheOrder {
  import opened Prelude
  import opened Headers
  import opened Cache
  import opened Exchange
  import opened ClientRuns

  /** A page handed to a caller, as a hit or by an answer to their own request. */
  datatype Handed = Handed(key: CacheKey, edition: nat, content: Content)

  /** A run beside its history. `history`: what each key has stood for, oldest
      first; `about`: which edition a request was answered with; `held`: which one
      the stored entry is; `handed`: what callers were given, in order. */
  datatype Timeline = Timeline(
    s: System,
    history: History,
    about: map<nat, nat>,
    held: map<CacheKey, nat>,
    handed: seq<Handed>)

  const OUTSET := Timeline(START, map[], map[], map[], [])

  type History = map<CacheKey, seq<Content>>

  function Editions(history: History, key: CacheKey): seq<Content> {
    if key in history then history[key] else []
  }

  predicate IsEdition(history: History, key: CacheKey, edition: nat, content: Content) {
    edition < |Editions(history, key)| && Editions(history, key)[edition] == content
  }

  function Stored(e: Entry): Content {
    Content(e.status, e.body)
  }

  /** The answer hands the caller a page. */
  predicate Tells(q: Request) {
    q.Answered? && (q.response.status == 304 || IsSuccess(q.response.status))
  }

  predicate Busy(s: System, key: CacheKey) {
    exists q <- s.requests :: !q.Finished? && q.key == key
  }

  function Published(t: Timeline, n: System, key: CacheKey, content: Content): Timeline {
    t.(s := n, history := t.history[key := Editions(t.history, key) + [content]])
  }

  function Asked(t: Timeline, n: System, key: CacheKey): Timeline {
    if key in t.s.store && key in t.held && IsFresh(t.s.store[key], t.s.now)
    then t.(s := n, handed := t.handed + [Handed(key, t.held[key], ContentOf(ToHit(t.s.store[key])))])
    else t.(s := n)
  }

  function Told(t: Timeline, n: System, i: nat): Timeline
    requires i < |t.s.requests| && t.s.requests[i].Sent?
  {
    t.(s := n, about := t.about[i := Monus(|Editions(t.history, t.s.requests[i].key)|, 1)])
  }

  function Handled(t: Timeline, n: System, i: nat): Timeline
    requires i < |t.s.requests| && t.s.requests[i].Answered?
  {
    var q := t.s.requests[i];
    var (effect, answer) := Finish(Some(q.key), q.stale, q.response, t.s.now);
    if Tells(q) && i in t.about
    then t.(s := n,
            held := if effect.Write? then t.held[q.key := t.about[i]] else t.held,
            handed := t.handed + [Handed(q.key, t.about[i], ContentOf(answer))])
    else t.(s := n)
  }

  /** The next state of a client whose callers set no tags. Unless `overlapping`, no
      request is sent while another for the same key is on its way. */
  function Follow(tags: Tags, overlapping: bool, t: Timeline, step: Step): Option<Timeline> {
    var n := Next(tags, false, t.s, step);
    if n.None? then None
    else match step
      case Publish(key, page) => Some(Published(t, n.value, key, page.content))
      case Ask(key, _) =>
        if !overlapping && Begin(t.s.store, Some(key), None, t.s.now).Send? && Busy(t.s, key) then None
        else Some(Asked(t, n.value, key))
      case AnswerInFull(i, _) => Some(Told(t, n.value, i))
      case AnswerNotModified(i, _) => Some(Told(t, n.value, i))
      case Handle(i) => Some(Handled(t, n.value, i))
      case _ => Some(t.(s := n.value))
  }

  function FollowAll(tags: Tags, overlapping: bool, t: Timeline, steps: seq<Step>): Option<Timeline>
    decreases |steps|
  {
    if steps == [] then Some(t)
    else var next := Follow(tags, overlapping, t, steps[0]);
         if next.None? then None else FollowAll(tags, overlapping, next.value, steps[1..])
  }

  ghost predicate Followed(tags: Tags, overlapping: bool, t: Timeline) {
    exists steps :: FollowAll(tags, overlapping, OUTSET, steps) == Some(t)
  }

  /** No caller is given an older edition than was given before. */
  ghost predicate HandedInOrder(handed: seq<Handed>) {
    forall a, b :: 0 <= a < b < |handed| && handed[a].key == handed[b].key ==> handed[a].edition <= handed[b].edition
  }

  // ----- editions -----

  ghost predicate TellsEdition(history: History, about: map<nat, nat>, i: nat, q: Request) {
    Tells(q) ==>
      && i in about && IsEdition(history, q.key, about[i], q.current)
      && (IsSuccess(q.response.status) ==> ContentOf(q.response) == q.current && Proper(q.response.headers))
  }

  ghost predicate PagesNumbered(history: History, pages: map<CacheKey, Page>) {
    forall k :: k in pages ==>
      Editions(history, k) != [] && IsEdition(history, k, |Editions(history, k)| - 1, pages[k].content)
  }

  ghost predicate StoreNumbered(history: History, held: map<CacheKey, nat>, store: Store) {
    forall k :: k in store ==> k in held && IsEdition(history, k, held[k], Stored(store[k]))
  }

  ghost predicate AnswersNumbered(history: History, about: map<nat, nat>, requests: seq<Request>) {
    forall i :: 0 <= i < |requests| ==> TellsEdition(history, about, i, requests[i])
  }

  ghost predicate HandedNumbered(history: History, handed: seq<Handed>) {
    forall h :: h in handed ==> IsEdition(history, h.key, h.edition, h.content)
  }

  /** The numbers are those of the contents stored, told and handed out. */
  ghost predicate Numbered(t: Timeline) {
    && PagesNumbered(t.history, t.s.pages) && StoreNumbered(t.history, t.held, t.s.store)
    && AnswersNumbered(t.history, t.about, t.s.requests) && HandedNumbered(t.history, t.handed)
  }

  lemma {:induction false} PublishedIsNumbered(t: Timeline, key: CacheKey, page: Page)
    requires Numbered(t)
    ensures Numbered(Published(t, t.s.(pages := t.s.pages[key := page]), key, page.content))
  {
    var later := t.history[key := Editions(t.history, key) + [page.content]];
    assert forall k, v, c :: IsEdition(t.history, k, v, c) ==> IsEdition(later, k, v, c);
    forall i | 0 <= i < |t.s.requests| ensures TellsEdition(later, t.about, i, t.s.requests[i]) {
      assert TellsEdition(t.history, t.about, i, t.s.requests[i]);
    }
  }

  /** What a hit hands out is what is stored. */
  lemma {:induction false} AskedIsNumbered(t: Timeline, n: System, key: CacheKey)
    requires Numbered(t) && n == t.s.(requests := n.requests, outputs := n.outputs)
    requires AnswersNumbered(t.history, t.about, n.requests)
    ensures Numbered(Asked(t, n, key))
  {
  }

  lemma {:induction false} SentIsNumbered(history: History, about: map<nat, nat>, requests: seq<Request>, q: Request)
    requires AnswersNumbered(history, about, requests) && !Tells(q)
    ensures AnswersNumbered(history, about, requests + [q])
  {
  }

  lemma {:induction false} SettledIsNumbered(history: History, about: map<nat, nat>, requests: seq<Request>, i: nat,
                                             q: Request)
    requires AnswersNumbered(history, about, requests) && i < |requests| && !Tells(q)
    ensures AnswersNumbered(history, about, requests[i := q])
  {
  }

  lemma {:induction false} ToldIsNumbered(t: Timeline, i: nat, r: Response, n: System)
    requires Numbered(t) && i < |t.s.requests| && t.s.requests[i].Sent? && t.s.requests[i].key in t.s.pages
    requires n == Answer(t.s, i, r, t.s.pages[t.s.requests[i].key].content).(given := n.given)
    requires r.status == 304 || (ContentOf(r) == t.s.pages[t.s.requests[i].key].content && Proper(r.headers))
    ensures Numbered(Told(t, n, i))
  {
    var m := Told(t, n, i);
    forall j | 0 <= j < |m.s.requests| ensures TellsEdition(m.history, m.about, j, m.s.requests[j]) {
      assert TellsEdition(t.history, t.about, j, t.s.requests[j]);
    }
  }

  /** What an answer stores and hands out is the content it speaks of. */
  lemma {:induction false} HandledContent(tags: Tags, t: Timeline, i: nat)
    requires Numbered(t) && Right(tags, t.s) && i < |t.s.requests| && Tells(t.s.requests[i])
    ensures var q := t.s.requests[i];
            var (effect, answer) := Finish(Some(q.key), q.stale, q.response, t.s.now);
            && ContentOf(answer) == q.current
            && (effect.Write? ==> Stored(effect.e) == q.current)
            && (effect.Keep? ==> q.stale.None?)
  {
    assert t.s.requests[i] in t.s.requests && TellsEdition(t.history, t.about, i, t.s.requests[i]);
  }

  /** An entry is the one just written, or it was there before. */
  lemma {:induction false} UpdatedEntries(store: Store, key: CacheKey, effect: Effect, now: nat)
    ensures forall k :: k in Updated(store, key, effect, now) ==>
              if effect.Write? && k == key then Updated(store, key, effect, now)[k] == effect.e
              else k in store && Updated(store, key, effect, now)[k] == store[k]
    ensures effect.Forget? ==> key !in Updated(store, key, effect, now)
  {
  }

  lemma {:induction false} UpdatedIsNumbered(history: History, held: map<CacheKey, nat>, store: Store, key: CacheKey,
                                             effect: Effect, now: nat, edition: nat)
    requires StoreNumbered(history, held, store)
    requires effect.Write? ==> IsEdition(history, key, edition, Stored(effect.e))
    ensures StoreNumbered(history, if effect.Write? then held[key := edition] else held,
                          Updated(store, key, effect, now))
  {
    UpdatedEntries(store, key, effect, now);
  }

  /** An answer that tells nothing changes nothing. */
  lemma {:induction false} NothingToTell(s: System, i: nat)
    requires i < |s.requests| && s.requests[i].Answered? && !Tells(s.requests[i])
    ensures HandleAt(s, i) == s.(requests := s.requests[i := Finished])
  {
  }

  lemma {:induction false} HandledIsNumbered(tags: Tags, t: Timeline, i: nat)
    requires Numbered(t) && Right(tags, t.s) && i < |t.s.requests| && t.s.requests[i].Answered?
    ensures Numbered(Handled(t, HandleAt(t.s, i), i))
  {
    var q, n := t.s.requests[i], Handled(t, HandleAt(t.s, i), i);
    SettledIsNumbered(t.history, t.about, t.s.requests, i, Finished);
    if Tells(q) {
      HandledContent(tags, t, i);
      assert TellsEdition(t.history, t.about, i, q);
      UpdatedIsNumbered(t.history, t.held, t.s.store, q.key, Finish(Some(q.key), q.stale, q.response, t.s.now).0,
                        t.s.now, t.about[i]);
    } else {
      NothingToTell(t.s, i);
    }
  }

  lemma {:induction false} NextAskIsNumbered(tags: Tags, t: Timeline, key: CacheKey)
    requires Numbered(t)
    ensures Numbered(Asked(t, Next(tags, false, t.s, Ask(key, None)).value, key))
  {
    var n := Next(tags, false, t.s, Ask(key, None)).value;
    if n.requests != t.s.requests {
      SentIsNumbered(t.history, t.about, t.s.requests, n.requests[|t.s.requests|]);
    }
    AskedIsNumbered(t, n, key);
  }

  lemma {:induction false} NextIsNumbered(tags: Tags, overlapping: bool, t: Timeline, step: Step)
    requires Numbered(t) && Right(tags, t.s) && Follow(tags, overlapping, t, step).Some?
    ensures Numbered(Follow(tags, overlapping, t, step).value)
  {
    var n := Follow(tags, overlapping, t, step).value;
    match step
    case Tick(_) =>
    case Publish(key, page) => PublishedIsNumbered(t, key, page);
    case Ask(key, callerTag) => NextAskIsNumbered(tags, t, key);
    case AnswerInFull(i, r) => ToldIsNumbered(t, i, r, n.s);
    case AnswerNotModified(i, r) => ToldIsNumbered(t, i, r, n.s);
    case AnswerOther(i, r) => SettledIsNumbered(t.history, t.about, t.s.requests, i, n.s.requests[i]);
    case Lose(i) => SettledIsNumbered(t.history, t.about, t.s.requests, i, Finished);
    case Handle(i) => HandledIsNumbered(tags, t, i);
  }

  // ----- order -----

  ghost predicate OneAtATime(requests: seq<Request>) {
    forall i, j :: 0 <= i < j < |requests| && !requests[i].Finished? && !requests[j].Finished? ==>
                     requests[i].key != requests[j].key
  }

  /** None of the key's pages given to callers is newer. */
  ghost predicate NoneNewer(handed: seq<Handed>, key: CacheKey, edition: nat) {
    forall h :: h in handed && h.key == key ==> h.edition <= edition
  }

  /** Nothing newer than the answer has been stored or handed out; and a request
      that found nothing stored still would. */
  ghost predicate TellsTheLatest(t: Timeline, i: nat, q: Request) {
    && (!q.Finished? && q.stale.None? ==> q.key !in t.s.store)
    && (Tells(q) && i in t.about ==>
          && (q.key in t.s.store && q.key in t.held ==> t.held[q.key] <= t.about[i])
          && NoneNewer(t.handed, q.key, t.about[i]))
  }

  ghost predicate AnswersInSequence(t: Timeline) {
    forall i :: 0 <= i < |t.s.requests| ==> TellsTheLatest(t, i, t.s.requests[i])
  }

  ghost predicate StoreInSequence(store: Store, held: map<CacheKey, nat>, handed: seq<Handed>) {
    forall k :: k in store && k in held ==> NoneNewer(handed, k, held[k])
  }

  ghost predicate InSequence(t: Timeline) {
    && OneAtATime(t.s.requests) && HandedInOrder(t.handed)
    && AnswersInSequence(t) && StoreInSequence(t.s.store, t.held, t.handed)
  }

  /** A page no older than those before it. */
  lemma {:induction false} OneMoreHanded(handed: seq<Handed>, h: Handed)
    requires HandedInOrder(handed) && NoneNewer(handed, h.key, h.edition)
    ensures HandedInOrder(handed + [h])
    ensures forall k, v :: NoneNewer(handed, k, v) && (k == h.key ==> h.edition <= v) ==> NoneNewer(handed + [h], k, v)
  {
  }

  lemma {:induction false} ToldInSequence(t: Timeline, i: nat, r: Response, current: Content, n: System)
    requires Numbered(t) && InSequence(t) && i < |t.s.requests| && t.s.requests[i].Sent?
    requires n == Answer(t.s, i, r, current).(given := n.given)
    ensures InSequence(Told(t, n, i))
  {
    var m := Told(t, n, i);
    forall j | 0 <= j < |m.s.requests| ensures TellsTheLatest(m, j, m.s.requests[j]) {
      assert TellsTheLatest(t, j, t.s.requests[j]);
    }
  }

  lemma {:induction false} HitInSequence(t: Timeline, n: System, key: CacheKey)
    requires Numbered(t) && InSequence(t) && key in t.s.store && IsFresh(t.s.store[key], t.s.now)
    requires n == t.s.(outputs := n.outputs)
    ensures InSequence(Asked(t, n, key))
  {
    var m := Asked(t, n, key);
    OneMoreHanded(t.handed, m.handed[|t.handed|]);
    forall j | 0 <= j < |m.s.requests| ensures TellsTheLatest(m, j, m.s.requests[j]) {
      assert TellsTheLatest(t, j, t.s.requests[j]);
    }
  }

  /** A new request, alone with its key, that has found nothing stored or goes on from it. */
  lemma {:induction false} SentInSequence(t: Timeline, q: Request)
    requires InSequence(t) && q.Sent? && !Busy(t.s, q.key) && (q.stale.None? ==> q.key !in t.s.store)
    ensures InSequence(t.(s := t.s.(requests := t.s.requests + [q])))
  {
    var m := t.(s := t.s.(requests := t.s.requests + [q]));
    forall j | 0 <= j < |m.s.requests| ensures TellsTheLatest(m, j, m.s.requests[j]) {
      if j < |t.s.requests| {
        assert TellsTheLatest(t, j, t.s.requests[j]);
      }
    }
    forall j | 0 <= j < |t.s.requests| ensures t.s.requests[j].Finished? || t.s.requests[j].key != q.key {
      assert t.s.requests[j] in t.s.requests;
    }
  }

  /** A request over, or answered with something that is no page. */
  lemma {:induction false} SettledInSequence(t: Timeline, i: nat, r: Request)
    requires InSequence(t) && i < |t.s.requests| && !t.s.requests[i].Finished? && !Tells(r)
    requires r.Finished? || (r.key == t.s.requests[i].key && r.stale == t.s.requests[i].stale)
    ensures InSequence(t.(s := t.s.(requests := t.s.requests[i := r])))
  {
    var m := t.(s := t.s.(requests := t.s.requests[i := r]));
    forall j | 0 <= j < |m.s.requests| ensures TellsTheLatest(m, j, m.s.requests[j]) {
      assert TellsTheLatest(t, j, t.s.requests[j]);
    }
  }

  /** What handling a page leaves behind. */
  lemma {:induction false} HandledPage(tags: Tags, t: Timeline, i: nat)
    requires Numbered(t) && Right(tags, t.s) && i < |t.s.requests| && Tells(t.s.requests[i])
    requires i in t.about
    ensures var q, n := t.s.requests[i], Handled(t, HandleAt(t.s, i), i);
            && n.s.requests == t.s.requests[i := Finished] && n.about == t.about
            && n.handed == t.handed + [Handed(q.key, t.about[i], q.current)]
            && (forall k :: k in n.s.store && k != q.key ==> k in t.s.store)
            && (forall k :: k in n.held && k != q.key ==> k in t.held && n.held[k] == t.held[k])
            && (q.key in n.s.store ==>
                  (q.key in n.held && n.held[q.key] == t.about[i]) || (q.stale.None? && q.key in t.s.store))
  {
    var q := t.s.requests[i];
    HandledContent(tags, t, i);
    UpdatedEntries(t.s.store, q.key, Finish(Some(q.key), q.stale, q.response, t.s.now).0, t.s.now);
  }

  /** The only request for its key hands out the newest page, and stores that or nothing. */
  lemma {:induction false} HandledInSequence(tags: Tags, t: Timeline, i: nat)
    requires Numbered(t) && Right(tags, t.s) && InSequence(t) && i < |t.s.requests| && Tells(t.s.requests[i])
    ensures InSequence(Handled(t, HandleAt(t.s, i), i))
  {
    var q, n := t.s.requests[i], Handled(t, HandleAt(t.s, i), i);
    assert TellsTheLatest(t, i, q) && TellsEdition(t.history, t.about, i, q);
    HandledPage(tags, t, i);
    OneMoreHanded(t.handed, n.handed[|t.handed|]);
    forall j | 0 <= j < |n.s.requests| ensures TellsTheLatest(n, j, n.s.requests[j]) {
      assert TellsTheLatest(t, j, t.s.requests[j]);
    }
  }

  lemma {:induction false} AskInSequence(tags: Tags, t: Timeline, key: CacheKey)
    requires Numbered(t) && InSequence(t) && Follow(tags, false, t, Ask(key, None)).Some?
    ensures InSequence(Follow(tags, false, t, Ask(key, None)).value)
  {
    var n := Follow(tags, false, t, Ask(key, None)).value;
    if n.s.requests == t.s.requests {
      HitInSequence(t, n.s, key);
    } else {
      SentInSequence(t, n.s.requests[|t.s.requests|]);
    }
  }

  lemma {:induction false} NextInSequence(tags: Tags, t: Timeline, step: Step)
    requires Numbered(t) && Right(tags, t.s) && InSequence(t) && Follow(tags, false, t, step).Some?
    ensures InSequence(Follow(tags, false, t, step).value)
  {
    var n := Follow(tags, false, t, step).value;
    match step
    case Tick(_) => SameSequence(t, n);
    case Publish(key, page) => SameSequence(t, n);
    case Ask(key, callerTag) => AskInSequence(tags, t, key);
    case AnswerInFull(i, r) => ToldInSequence(t, i, r, ContentOf(r), n.s);
    case AnswerNotModified(i, r) => ToldInSequence(t, i, r, t.s.pages[t.s.requests[i].key].content, n.s);
    case AnswerOther(i, r) => SettledInSequence(t, i, n.s.requests[i]);
    case Lose(i) => SettledInSequence(t, i, Finished);
    case Handle(i) =>
      if Tells(t.s.requests[i]) {
        HandledInSequence(tags, t, i);
      } else {
        NothingToTell(t.s, i);
        SettledInSequence(t, i, Finished);
      }
  }

  lemma {:induction false} SameSequence(t: Timeline, n: Timeline)
    requires InSequence(t) && (n.held, n.handed, n.about) == (t.held, t.handed, t.about)
    requires n.s.requests == t.s.requests && n.s.store == t.s.store
    ensures InSequence(n)
  {
    forall j | 0 <= j < |n.s.requests| ensures TellsTheLatest(n, j, n.s.requests[j]) {
      assert TellsTheLatest(t, j, t.s.requests[j]);
    }
  }

  lemma {:induction false} FollowedInSequence(tags: Tags, overlapping: bool, t: Timeline, steps: seq<Step>)
    requires Numbered(t) && Right(tags, t.s) && (!overlapping ==> InSequence(t))
    requires FollowAll(tags, overlapping, t, steps).Some?
    ensures var n := FollowAll(tags, overlapping, t, steps).value;
            Numbered(n) && Right(tags, n.s) && (!overlapping ==> InSequence(n))
    decreases |steps|
  {
    if steps != [] {
      NextIsNumbered(tags, overlapping, t, steps[0]);
      NextStaysRight(tags, t.s, steps[0]);
      if !overlapping {
        NextInSequence(tags, t, steps[0]);
      }
      FollowedInSequence(tags, overlapping, Follow(tags, overlapping, t, steps[0]).value, steps[1..]);
    }
  }

  /** Whatever overlaps, the editions stored and handed out are what they are said
      to be; and if requests for one key never overlap, none is handed out after a
      newer one. */
  lemma {:induction false} EditionsAreTrue(tags: Tags, overlapping: bool, t: Timeline)
    requires Followed(tags, overlapping, t)
    ensures HandedNumbered(t.history, t.handed) && StoreNumbered(t.history, t.held, t.s.store)
    ensures !overlapping ==> HandedInOrder(t.handed)
  {
    var steps :| FollowAll(tags, overlapping, OUTSET, steps) == Some(t);
    FollowedInSequence(tags, overlapping, OUTSET, steps);
  }

  // ----- requests that overlap -----

  /** A page with its tag, fresh for an instant. */
  function FreshAnswer(content: Content, tag: string): Response {
    Response(content.status, map["etag" := [tag]], content.body, Some(1), None)
  }

  lemma {:induction false} ThreeFollow(tags: Tags, overlapping: bool, t: Timeline, a: Step, b: Step, c: Step,
                                       t1: Timeline, t2: Timeline, t3: Timeline)
    requires Follow(tags, overlapping, t, a) == Some(t1) && Follow(tags, overlapping, t1, b) == Some(t2)
    requires Follow(tags, overlapping, t2, c) == Some(t3)
    ensures FollowAll(tags, overlapping, t, [a, b, c]) == Some(t3)
  {
    assert FollowAll(tags, overlapping, t2, [c]) == Some(t3);
    assert FollowAll(tags, overlapping, t1, [b, c]) == Some(t3);
  }

  lemma {:induction false} FollowAppend(tags: Tags, overlapping: bool, t: Timeline, first: seq<Step>,
                                        second: seq<Step>)
    requires FollowAll(tags, overlapping, t, first).Some?
    ensures FollowAll(tags, overlapping, t, first + second)
         == FollowAll(tags, overlapping, FollowAll(tags, overlapping, t, first).value, second)
    decreases |first|
  {
    if first == [] {
      assert first + second == second;
    } else {
      assert (first + second)[1..] == first[1..] + second;
      FollowAppend(tags, overlapping, Follow(tags, overlapping, t, first[0]).value, first[1..], second);
    }
  }

  /** Two requests for a page are on their way. */
  lemma {:induction false} BothSent(tags: Tags, key: CacheKey, tag: string) returns (t: Timeline)
    requires IsSuccess(tags(key, tag).status)
    ensures var page := Page(tags(key, tag), Some(tag));
            && FollowAll(tags, true, OUTSET, [Publish(key, page), Ask(key, None), Ask(key, None)]) == Some(t)
            && t.s == START.(pages := map[key := page], requests := [Sent(key, None, None), Sent(key, None, None)])
            && t == OUTSET.(s := t.s, history := map[key := [page.content]])
  {
    var publish, ask := Publish(key, Page(tags(key, tag), Some(tag))), Ask(key, None);
    var a := Follow(tags, true, OUTSET, publish).value;
    assert Editions(OUTSET.history, key) + [tags(key, tag)] == [tags(key, tag)];
    var b := Follow(tags, true, a, ask).value;
    t := Follow(tags, true, b, ask).value;
    ThreeFollow(tags, true, OUTSET, publish, ask, ask, a, b, t);
  }

  /** One is answered with the page as it is, the other with the next one. */
  lemma {:induction false} BothAnswered(tags: Tags, key: CacheKey, t1: string, t2: string, t: Timeline)
    returns (n: Timeline)
    requires IsSuccess(tags(key, t1).status) && IsSuccess(tags(key, t2).status)
    requires t.s.pages == map[key := Page(tags(key, t1), Some(t1))]
    requires t.s.requests == [Sent(key, None, None), Sent(key, None, None)]
    requires t.history == map[key := [tags(key, t1)]] && t.about == map[]
    ensures var first, second := FreshAnswer(tags(key, t1), t1), FreshAnswer(tags(key, t2), t2);
            && FollowAll(tags, true, t, [AnswerInFull(0, first), Publish(key, Page(tags(key, t2), Some(t2))),
                                         AnswerInFull(1, second)]) == Some(n)
            && n.s.requests == [Answered(key, None, None, first, tags(key, t1)),
                                Answered(key, None, None, second, tags(key, t2))]
            && (n.s.now, n.s.store, n.s.outputs) == (t.s.now, t.s.store, t.s.outputs)
            && (n.held, n.handed, n.about) == (t.held, t.handed, map[0 := 0, 1 := 1])
  {
    var first, second := FreshAnswer(tags(key, t1), t1), FreshAnswer(tags(key, t2), t2);
    var publish := Publish(key, Page(tags(key, t2), Some(t2)));
    var a := Follow(tags, true, t, AnswerInFull(0, first)).value;
    var b := Follow(tags, true, a, publish).value;
    assert |Editions(b.history, key)| == 2;
    n := Follow(tags, true, b, AnswerInFull(1, second)).value;
    ThreeFollow(tags, true, t, AnswerInFull(0, first), publish, AnswerInFull(1, second), a, b, n);
  }

  lemma {:induction false} FreshHandled(tags: Tags, key: CacheKey, tag: string, t: Timeline, i: nat)
    returns (n: Timeline)
    requires IsSuccess(tags(key, tag).status) && t.s.now == 0 && t.s.store.Keys <= {key} && i in t.about
    requires i < |t.s.requests|
    requires t.s.requests[i] == Answered(key, None, None, FreshAnswer(tags(key, tag), tag), tags(key, tag))
    ensures Follow(tags, true, t, Handle(i)) == Some(n)
    ensures n.s.requests == t.s.requests[i := Finished] && n.s.now == 0 && n.about == t.about
    ensures n.s.store.Keys == {key} && IsFresh(n.s.store[key], 0) && Stored(n.s.store[key]) == tags(key, tag)
    ensures key in n.held && n.held[key] == t.about[i]
    ensures n.handed == t.handed + [Handed(key, t.about[i], tags(key, tag))]
  {
    AtMostOne(t.s.store.Keys, key);
    n := Follow(tags, true, t, Handle(i)).value;
  }

  lemma {:induction false} AtMostOne(keys: set<CacheKey>, key: CacheKey)
    requires keys <= {key}
    ensures |keys| <= 1
  {
    if keys != {} {
      assert keys == {key};
    }
  }

  lemma {:induction false} ServedAgain(tags: Tags, key: CacheKey, t: Timeline) returns (n: Timeline)
    requires key in t.s.store && key in t.held && IsFresh(t.s.store[key], t.s.now)
    ensures Follow(tags, true, t, Ask(key, None)) == Some(n)
    ensures n.handed == t.handed + [Handed(key, t.held[key], Stored(t.s.store[key]))]
    ensures n.s.store == t.s.store && n.s.outputs == t.s.outputs + [Hit(key, ToHit(t.s.store[key]), t.s.now)]
  {
    n := Follow(tags, true, t, Ask(key, None)).value;
  }

  /** The newer answer is handled first, so the older one is stored, and a later
      request is served the older page. */
  lemma {:induction false} OldAnswerHandled(tags: Tags, key: CacheKey, t1: string, t2: string, t: Timeline)
    returns (n: Timeline)
    requires IsSuccess(tags(key, t1).status) && IsSuccess(tags(key, t2).status)
    requires t.s.requests == [Answered(key, None, None, FreshAnswer(tags(key, t1), t1), tags(key, t1)),
                              Answered(key, None, None, FreshAnswer(tags(key, t2), t2), tags(key, t2))]
    requires t.s.now == 0 && t.s.store == map[] && t.about == map[0 := 0, 1 := 1] && t.handed == []
    ensures FollowAll(tags, true, t, [Handle(1), Handle(0), Ask(key, None)]) == Some(n)
    ensures n.handed == [Handed(key, 1, tags(key, t2)), Handed(key, 0, tags(key, t1)), Handed(key, 0, tags(key, t1))]
    ensures n.s.outputs != [] && n.s.outputs[|n.s.outputs| - 1].Hit?
    ensures key in n.s.store && Stored(n.s.store[key]) == tags(key, t1)
  {
    var a := FreshHandled(tags, key, t2, t, 1);
    var b := FreshHandled(tags, key, t1, a, 0);
    n := ServedAgain(tags, key, b);
    ThreeFollow(tags, true, t, Handle(1), Handle(0), Ask(key, None), a, b, n);
  }

  /** Two requests for a page overlap, the page changes between their answers, and
      the older answer is handled last: a hit then serves the older page, although
      the newer one has been handed out. */
  lemma {:induction false} OldPageAgain(tags: Tags, key: CacheKey, t1: string, t2: string) returns (t: Timeline)
    requires IsSuccess(tags(key, t1).status) && IsSuccess(tags(key, t2).status)
    ensures Followed(tags, true, t)
    ensures t.handed == [Handed(key, 1, tags(key, t2)), Handed(key, 0, tags(key, t1)), Handed(key, 0, tags(key, t1))]
    ensures t.s.outputs != [] && t.s.outputs[|t.s.outputs| - 1].Hit?
    ensures key in t.s.store && Stored(t.s.store[key]) == tags(key, t1)
  {
    var publish, again := Publish(key, Page(tags(key, t1), Some(t1))), Publish(key, Page(tags(key, t2), Some(t2)));
    var first := [publish, Ask(key, None), Ask(key, None)];
    var second := [AnswerInFull(0, FreshAnswer(tags(key, t1), t1)), again,
                   AnswerInFull(1, FreshAnswer(tags(key, t2), t2))];
    var third := [Handle(1), Handle(0), Ask(key, None)];
    var a := BothSent(tags, key, t1);
    var b := BothAnswered(tags, key, t1, t2, a);
    t := OldAnswerHandled(tags, key, t1, t2, b);
    FollowAppend(tags, true, OUTSET, first, second);
    FollowAppend(tags, true, OUTSET, first + second, third);
  }

  /** Without callers' tags, pages are handed out in order in every run exactly when
      requests for one key do not overlap. */
  lemma {:induction false} InOrderExactly(tags: Tags, overlapping: bool, key: CacheKey, t1: string, t2: string)
    requires IsSuccess(tags(key, t1).status) && IsSuccess(tags(key, t2).status)
    ensures (forall t :: Followed(tags, overlapping, t) ==> HandedInOrder(t.handed)) <==> !overlapping
  {
    if overlapping {
      var t := OldPageAgain(tags, key, t1, t2);
      assert t.handed[0].key == t.handed[1].key && t.handed[0].edition > t.handed[1].edition;
    } else {
      forall t | Followed(tags, overlapping, t) ensures HandedInOrder(t.handed) {
        EditionsAreTrue(tags, overlapping, t);
      }
    }
  }
}
