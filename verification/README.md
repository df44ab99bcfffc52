# Verification of the ESI client's core

This project models, in Dafny, the four parts of the client whose behaviour is
hardest to see from the code alone, and proves what they are for.

- **Rate limits.** `BucketModel` says what one bucket computes and `Bucket`
  does it in place; `LimiterModel` and `RateLimiter` do the same for all
  buckets of a client, with learnt groups, changing limits and reservations;
  `ResponseFigures` reads what a response says, as the server printed it;
  `Waiting` is the loop that polls and sleeps while others use the limiter.
  `GroupRuns` puts one bucket beside the server's own floating window and lets
  acquiring, charging, recording, dropping, polling, time and other users
  interleave freely, with limits and windows that need not be the same;
  `Headline` and `SharedGroup` hold the safety theorems, `Overdraws` the runs that
  pass the server's limit, one family for each condition; `GroupRefinement` shows
  that every run of a whole limiter beside the server is a run of the group, and
  `LimiterSafety` that every run of the group is one of the limiter, which carries
  the theorems over in both directions.
- **The request pipeline and its cache.** `Headers`, `Cache` and `Exchange` say
  what one request does to the cache, and `Answers` what callers get out of it,
  header by header, and for how long; `Client` performs it against both the
  cache and the limiter; `ClientRuns` runs any number of requests against a
  server whose pages change, in any interleaving, and `CacheOrder` says in which
  order callers see those pages.
- **The specification normaliser.** `Json` holds trees, paths and JSON pointers
  (sections 3 and 4 of RFC 6901); `Unions`, `UnionBranches`, `UnionSteps` and
  `Responses` say what the two rewrites do; `UnionOutcome` says it again in the description's own
  terms; `UnionReports` says which warnings outlive the fixes; `Normalizer` performs the rewrites in place.
- **Token refresh.** `Auth` holds the authenticator and every run of its
  callers against a server that may rotate the refresh token.

Time is a natural number of nanoseconds. The lock-protected parts are single
steps; sending, sleeping and other users are steps of the surrounding system.
The origin server, the token server, the clock, the length of each sleep and
what others do meanwhile are parameters of the methods. Every lemma carries
`{:induction false}`: each induction is written out.

## Where the code falls short of its own words

- `src/rate_limit.rs:12-15` promises that a client's own traffic never drives a
  bucket into 429. Say the bucket works with a limit of `m` tokens over a window
  `w`, as the specification and the headers state them, and the server with `L`
  tokens over `W`, from which its figures come, and none of the four changes. Then
  the promise holds in every run if and only if nobody else spends from the
  budget; every charge is recorded in full, so no charged request is cancelled or
  fails before its answer (dropping its reservation is all that
  `src/rate_limit.rs:169-170` does then), and no answer comes without figures or
  with a smaller `used`; every request has a reservation, so none leaves before
  its operation's group is known; and
  - without the server's remaining figures, however late the answers: `m > 0`, and
    the bursts of `max(m, 5)` tokens that can begin within the server's window, `W / w`
    of them rounded up, fit into `L`. A client that spends a full bucket whenever its
    window is over reaches exactly that, so a longer `W` is harmless only if `L` has
    room for the bursts, and `m <= L` with `W <= w` is enough from five tokens on;
  - with figures recorded at the instant they are made: `5 <= m <= L` and `W = w`;
  - with figures that come late, or `W < w`: `m = L = 5` and `W <= w`. Otherwise a
    spend the server has forgotten, and left out of its figure, is credited to that
    figure once the bucket releases it.

  (`Headline.NeverOverdrawsExactly` for the group,
  `LimiterSafety.LimiterNeverOverdrawsExactly` for the whole limiter.) Each
  condition has a family of runs that overdraws without it, in `Overdraws`, and
  each run of the group is one of the limiter
  (`LimiterSafety.GroupRunIsLimiterRun`). Two members of these families: a bucket of
  10 tokens over 60 seconds beside a server that allows 10 over 30
  (`Overdraws.OverdrawShorterSpan`), and a bucket of 5 beside a server that allows
  9, with late figures (`Overdraws.OverdrawWithDelay`).
- `src/rate_limit.rs:109-111` takes a released spend to be available again. When
  somebody else has taken the server over its limit, the last figure comes as
  zero, and the next released spend is credited to it although the server is
  still over. The estimate is too high exactly then, or when without a figure the
  bucket is larger than the server's limit (`SharedGroup.EstimateExactly`, with a
  run in `SharedGroup.FigureBelowZero`); a last figure above zero and a bucket no
  larger rule it out (`SharedGroup.EstimateIsSafe`).
- `src/rate_limit.rs:53-56` calls the learnt groups those that differ from the
  specification's. A learnt group is never unlearnt: after a run an operation is
  governed by the last foreign group reported for it, and a later report of the
  specification's own group changes nothing
  (`LimiterModel.LastReportGovernsExactly`, with a run in
  `LimiterModel.OldGroupKept`).
- `src/rate_limit.rs:18-19` says how long a wait lasts. A request waits for ever
  if the reservations already made leave no room and nobody gives any back
  (`Waiting.NoRoomNoEntry`); with room, in an otherwise idle group, it is let in by
  the deadline (`Waiting.WaiterGetsIn`).
- `src/cache.rs:239-247` lets a caller's own `If-None-Match` win while the stale
  entry is still kept for the answer. A 304 to that tag then resurrects the
  wrong body exactly when the tag does not stand for what the entry holds
  (`ClientRuns.ResurrectedExactly`); the cache is coherent in all runs exactly
  without such callers (`ClientRuns.CoherentExactly`).
- `src/hooks.rs:84-115` handles answers in the order they come back. If two
  requests for one key overlap and the older answer is handled last, it replaces
  the newer entry, and a later hit goes back in time (`CacheOrder.OldPageAgain`);
  pages are handed out in order in all runs exactly if requests for one key do not
  overlap (`CacheOrder.InOrderExactly`).
- `src/cache.rs:266-267` calls the default cache bounded. Fresh entries are
  never evicted, so over any operations it stays within the limit exactly when
  there are never more fresh entries than that (`Cache.BoundedExactly`, with a
  run past the limit in `Cache.LimitPassed`).
- `build_support/normalize.rs:32-35` speaks of dropping bodiless secondary
  success codes. The code drops every success but `200` when there are several,
  so none is left if `200` is not among them (`Responses.OneSuccess`).
- `build_support/normalize.rs:111-115` returns the branches that will
  mis-parse. A warning is true of the original tree, and every branch that is
  still ambiguous at the end has one; but a warning outlives its reason exactly
  when a fix replaced what held the branch or the reference's target, or fixed
  the target (`UnionReports.ReportStandsExactly`, with a tree in
  `UnionReports.OutlivedReportExists`).
- `src/auth.rs:632-634` is about order alone, and order is kept. That each
  refresh presents the token valid at the server needs, beyond the lock, that
  the client starts with it and that no reply is lost after the server has
  rotated (`Auth.PresentsValidExactly`).

## Model

| member | source | states |
|---|---|---|
| `Buckets.Bucket.Settle` | src/rate_limit.rs:86-118 | lifting the hold with its figure, dropping a stale figure and popping released spends leaves exactly the settled bucket, every other field as it was |
| `Buckets.Bucket.GetAvailable` | src/rate_limit.rs:120-130 | the summing loop computes the settled estimate less what is in flight |
| `Buckets.Bucket.GetReadyAt` | src/rate_limit.rs:136-166 | the loop with early returns finds the predicted instant |
| `Buckets.Bucket.ReserveIfReady` | src/rate_limit.rs:207-219 | settles, predicts, and reserves the worst case only when ready |
| `Buckets.Bucket.GiveBack` | src/rate_limit.rs:177-185 | only the tokens in flight change, saturating at zero |
| `Buckets.Bucket.ReportBudget` | src/rate_limit.rs:233-242 | the budget reported is the settled bucket's, and reporting does no more than settle |
| `Buckets.BudgetIsTrue` | src/rate_limit.rs:233-242 | a listed budget is true: a request would be let in now exactly if nothing is said to be blocked and the estimate covers a worst case, and nothing is let in for as long as it is said to be blocked |
| `Buckets.Bucket.Record` | src/rate_limit.rs:293-311 | limit, spend, figure and hold of a response are taken in, after settling under the new limit |
| `BucketModel.SettledInClosedForm` | src/rate_limit.rs:88-118 | settling leaves exactly the spends inside the window, a hold that is not over, and the figure, if less than a window old and no hold has ended since, plus everything released, capped at the maximum |
| `BucketModel.HoldEnded` | src/rate_limit.rs:89-95 | once a hold is over there is no figure: the estimate is the maximum less the spends inside the window, and a request is let through exactly when that, less what is in flight, covers a worst case |
| `BucketModel.AdmissionLasts` | src/rate_limit.rs:86-130 | left alone, a bucket that lets in goes on doing so |
| `BucketModel.SettlingComposes` | src/rate_limit.rs:86-118 | settling early and then late is settling late: polling and listing budgets never alter the accounting |
| `BucketModel.RecordedIsWellFormed` | src/rate_limit.rs:298-303 | spends stay sorted, none newer than the figure, the figure at most the maximum, whatever the headers say |
| `BucketModel.RecordedSpends` | src/rate_limit.rs:293-302 | whatever limit a response brings, and whether or not it says what was used, the spends counted at any later instant are those before, by the new window, plus what it says for one window |
| `BucketModel.FirstSufficientIsExact` | src/rate_limit.rs:147-158 | before the release found the tokens do not suffice, from it on they do; with none found they never would |
| `BucketModel.ReadyNowExactly` | src/rate_limit.rs:138-146 | on a settled bucket "now" is predicted exactly when there is no hold and a worst case is covered |
| `BucketModel.AdmitsExactly` | src/rate_limit.rs:207-218 | a request is let through at an instant exactly when the bucket settled there has no hold and covers a worst case |
| `BucketModel.ReadyAtIsNeverLate` | src/rate_limit.rs:136-166 | with no further events no instant before the prediction would admit |
| `BucketModel.ReadyAtIsExact` | src/rate_limit.rs:136-166 | with nothing in flight and no hold, and own spends within the maximum, the predicted instant admits |
| `BucketModel.ReadyAtIsOne` | src/rate_limit.rs:136-166 | a prediction later than now is the end of the hold, or the release of a spend or of the figure, or a second from now when spends do not stand in the way |
| `BucketModel.BucketWithRoomAdmits` | src/rate_limit.rs:18-19 | with room beside the reservations made, everything from one window after entry and the end of the hold admits |
| `BucketModel.AdmitsEventuallyExactly` | src/rate_limit.rs:159-165 | left alone, a bucket admits sooner or later exactly when its reservations leave room for one more |
| `LimitHeader.WindowSizeExactly` | build_support/rate_limit_window.rs:6-18 | a count of seconds, minutes or hours parses to that many seconds, and to nothing exactly when that is zero or overflows 64 bits; no other unit parses |
| `LimitHeader.OnlyCountsWithUnits` | build_support/rate_limit_window.rs:6-18 | nothing but a count with a unit parses, and every parsed window is positive |
| `LimitHeader.LimitRoundTrip` | src/rate_limit.rs:337-342 | a printed limit parses back to its tokens and seconds, with any spacing |
| `ResponseFigures.StatementRoundTrip` | src/rate_limit.rs:250-258 | whatever group, limit, remaining and used tokens and delay a server prints under their headers, with any space around them, is read as exactly that, each for itself; a hold exists exactly for a 429 |
| `ResponseFigures.CountsAreRead` | src/rate_limit.rs:257-258 | remaining and used tokens are read from their own headers, and a number too large for 32 bits is none |
| `ResponseFigures.UnreadableHold` | src/rate_limit.rs:304-309 | a 429 whose delay is no number holds its group for sixty seconds |
| `ResponseFigures.AnswerIsCounted` | src/rate_limit.rs:293-311 | the printed cost becomes a spend of now and the printed remaining tokens, at most the maximum, the figure, under the limit the response brings if it brings one |
| `ResponseFigures.DelayIsHonoured` | src/rate_limit.rs:304-311 | from the printed 429 on nothing of its group is let in before the seconds it says, or sixty, whatever happens meanwhile |
| `ResponseFigures.DelayIsOver` | src/rate_limit.rs:89-95 | and from then on, with nothing else heard, a request is let in exactly when the tokens not spent within the window, or reserved, cover a worst case, whatever figure came with the 429 |
| `RateLimiters.RateLimiter.Occupy` | src/rate_limit.rs:282-292 | a group without a bucket gets one from the header's limit, else the specification's, else none; nothing else changes |
| `RateLimiters.RateLimiter.BucketOf` | src/rate_limit.rs:316-333 | the governing group, learnt before specified, its bucket created on first use |
| `RateLimiters.RateLimiter.TryAcquire` | src/rate_limit.rs:198-220 | one round of waiting changes the limiter and answers exactly as the poll on values |
| `RateLimiters.RateLimiter.Acquire` | src/rate_limit.rs:193-223 | the loop of polling and sleeping, with any use of the limiter by others during each sleep, leaves the limiter and comes to the outcome that waiting on values does |
| `RateLimiters.RateLimiter.Await` | src/rate_limit.rs:194-222 | and it asks at the instants that `Waiting.PollsAreClose` is about |
| `Waiting.PollsAreClose` | src/rate_limit.rs:42-44 | a waiter sleeps until the predicted instant but never longer than a second, and what the sleep overruns, and is let in at the first poll that admits |
| `Waiting.LetInSoon` | src/rate_limit.rs:42-44 | whatever others do during a sleep, if from some instant on that leaves the bucket ready, the waiter is let in within a second of it, and one overrun, while the group is otherwise idle |
| `Waiting.ReturnLetsIn` | src/rate_limit.rs:42-44 | a reservation given back during a sleep lets the waiter in within a second, and one overrun, of the first instant at which that is enough |
| `Waiting.PollComposes` | src/rate_limit.rs:196-223 | a poll told to wait leaves every later poll as if it had not happened |
| `Waiting.WaitIsBounded` | src/rate_limit.rs:207-221 | with room, a poll told to wait happened before the deadline and is told to come back by it |
| `Waiting.WaiterGetsIn` | src/rate_limit.rs:193-223 | with room beside the reservations made, in an otherwise idle group, every waiter is let in no later than the end of the hold or one window from entry, plus the slack of one sleep, whatever others do meanwhile in other groups, give back, list, or wait for in this one |
| `Waiting.QuietWaiterGetsInFirst` | src/rate_limit.rs:136-166 | with nobody else about, the polls leave no trace, and a waiter who never oversleeps is let in at the first instant that would have admitted anything |
| `Waiting.NoRoomNoEntry` | src/rate_limit.rs:159-165 | without room, and left alone, no poll ever admits |
| `RateLimiters.RateLimiter.Record` | src/rate_limit.rs:249-312 | learning the group, giving it a bucket and taking in the figures amount to recording on values |
| `RateLimiters.RateLimiter.RecordGroupOf` | src/rate_limit.rs:266-281 | the group a response belongs to, remembered when the specification does not have it |
| `RateLimiters.RateLimiter.Release` | src/rate_limit.rs:177-185 | dropping a reservation changes its own bucket's tokens in flight and nothing else |
| `RateLimiters.RateLimiter.Budgets` | src/rate_limit.rs:225-246 | every bucket is settled and reported, once each, in the order of the group names |
| `LimiterModel.GroupAfterRun` | src/rate_limit.rs:266-281 | after any run an operation is governed by the last group reported for it that the specification does not have, if there was one |
| `LimiterModel.LastReportGovernsExactly` | src/rate_limit.rs:267-281 | over runs from the start, requests go by the group reported last if and only if it is not the specification's, or no other was ever reported |
| `LimiterModel.OldGroupKept` | src/rate_limit.rs:267-281 | two responses, the second back in the specification's group: the next request is reserved in the other one |
| `LimiterModel.CountedWhereReserved` | src/rate_limit.rs:266-281 | a response that names no group is counted where its request was reserved, over any run in which the operation is not reported to be in another |
| `LimiterModel.LimitGoverns` | src/rate_limit.rs:282-292 | a limit in a response governs its group from then on, with or without other figures, and creates the bucket if there is none |
| `LimiterModel.ReleaseStaysSound` | src/rate_limit.rs:177-185 | giving back never saturates: the bucket holds at least the reservation's tokens |
| `LimiterModel.NextStaysSound` | src/rate_limit.rs:46-72 | every operation keeps each bucket well formed and its tokens in flight exactly the sum of the group's live reservations |
| `LimiterModel.RunStaysSound` | src/rate_limit.rs:171-185 | the same over whole runs, while groups are learnt and limits change mid-flight |
| `LimiterModel.HoldIsHonoured` | src/rate_limit.rs:304-311 | after a 429 with delay R no request of the group is admitted before R has passed, whatever else is recorded, requested, released or listed |
| `LimiterModel.HoldIsLifted` | src/rate_limit.rs:89-95 | and from the end of the delay on a request is let in exactly when the tokens not spent within the window, or reserved, cover a worst case |
| `LimiterModel.HoldsAreAskedFor` | src/rate_limit.rs:304-311 | over any run a group is held at no instant that no 429 of its own asked for |
| `GroupRuns.RunKeeps` | src/rate_limit.rs:59-72 | in every run tokens in flight are the open reservations, and the spends are each recorded charge for one window |
| `GroupRuns.DropKeeps` | src/rate_limit.rs:177-185 | dropping takes exactly the reserved tokens out of flight |
| `GroupRefinement.LimiterStepIsGroupStep` | src/rate_limit.rs:196-312 | each act of the whole limiter, for any operation and response that belongs to the group, naming it and its limit or not, does to the group's bucket what the group's own model does |
| `GroupRefinement.AskGoesThrough` | src/rate_limit.rs:196-220 | the pairing excludes no request the limiter admits to the group, and only requests that leave without a reservation when none may |
| `GroupRefinement.LimiterRunIsGroupRun` | src/rate_limit.rs:187-334 | every run of the limiter beside the server is a run of the group |
| `GroupRefinement.LimiterRuns` | src/rate_limit.rs:187-334 | beside the server the limiter goes through its own runs and no others |
| `LimiterSafety.GroupRunIsLimiterRun` | src/rate_limit.rs:187-334 | every run of the group is a run of the limiter beside the server, given one operation of the group and one the specification lacks |
| `LimiterSafety.LimiterNeverOverdrawsExactly` | src/rate_limit.rs:12-15 | for any limit and window of the bucket and of the server, no run of the whole limiter overdraws the group if and only if its configuration is safe |
| `GroupRefinement.LimiterNeverOverdraws` | src/rate_limit.rs:12-15 | in every run of the whole limiter, with any operations and other groups, the server never counts more than its limit for a group whose configuration is safe, even if all unanswered requests cost their worst case |
| `GroupRefinement.LimiterMirrorsServer` | src/rate_limit.rs:65-69 | with prompt delivery the limiter's settled estimate never exceeds the server's remaining tokens, now and later, and equals them if limits and windows are the same |
| `GroupRefinement.UnknownGroupOverdraws` | src/rate_limit.rs:200-206 | any number of requests of an unknown operation leave at once, and are charged as they are answered |
| `GroupRefinement.SilentAnswersOverdraw` | src/rate_limit.rs:260-263 | requests whose answers carry no figures spend without end, the bucket looking full |
| `Headline.EstimateMirrorsServer` | src/rate_limit.rs:65-69 | with prompt delivery the settled estimate never exceeds the server's remaining tokens, now and later, equals them if limits and windows are the same, and the server's remaining tokens cover every unanswered reservation |
| `Headline.NoOverdraw` | src/rate_limit.rs:12-15 | in every reachable state of a safe configuration, the group known and limits and windows fixed, what the server counts, and own spends plus outstanding worst cases, fit the server's limit, under any delay and order |
| `Headline.NeverOverdrawsExactly` | src/rate_limit.rs:12-15 | for any limit and window of the bucket and of the server, no run overdraws if and only if nobody else spends, every charge is recorded in full, every request has a reservation, and: without figures, the bucket has a token and the bursts that can begin within the server's window fit its limit; with prompt figures, the bucket has five tokens or more, no more than the server's limit, and the same window, or both limits are five and the server's window is no longer; with late figures, the last of these |
| `Overdraws.OverdrawByBursts` | src/rate_limit.rs:104-126 | a full bucket spent, and again whenever its window is over, takes the server past its limit once the bursts that begin within its window exceed it, under any delivery |
| `Overdraws.SpendFreely` | src/rate_limit.rs:132-134 | a bucket of no tokens reserves nothing, so requests follow one another without end |
| `Overdraws.OverdrawSmallBucket` | src/rate_limit.rs:132-134 | a bucket of one to four tokens reserves less than a worst case, and with figures spends the server to that and past it |
| `Overdraws.OverdrawLongerSpan` | src/rate_limit.rs:96-103 | with figures, a bucket whose window is the shorter forgets figure and spends that the server still counts |
| `Overdraws.OverdrawShorterSpan` | src/rate_limit.rs:104-117 | with figures, a bucket whose window is the longer credits a spend to a figure that never had it taken off, for every bucket of five tokens or more and server limit above five |
| `Overdraws.OverdrawWithDelay` | src/rate_limit.rs:104-117 | late figures do the same even under windows that are the same, for the same buckets and limits |
| `Overdraws.OverdrawShared` | src/rate_limit.rs:207-219 | another user spends what a reservation was counting on |
| `Overdraws.OverdrawByLoss` | src/rate_limit.rs:169-185 | requests charged and then dropped unrecorded spend without end, one after another |
| `Overdraws.OverdrawUnmapped` | src/rate_limit.rs:200-206 | requests without a reservation leave all at once and overdraw any budget |
| `SharedGroup.EstimateExactly` | src/rate_limit.rs:96-130 | with prompt delivery and equal windows, while all charges without a record precede the last figure and until a hold is lifted, the estimate exceeds the server's remaining tokens at a later instant if and only if: the figure is still used, the server was over its limit when it was taken, a recorded spend has been released since, the unrecorded ones released with it do not make up the excess, and the server has less than a full bucket left; or no figure is, the bucket is larger than the server's limit, and its recorded spends do not fill it |
| `SharedGroup.EstimateIsSafe` | src/rate_limit.rs:96-130 | under the same terms, with a bucket no larger than the server's limit, a last figure above zero, or a server within its limit when it was taken, makes the estimate safe at every later instant, also after the figure has gone stale |
| `SharedGroup.FigureBelowZero` | src/rate_limit.rs:109-117 | a run in which the server is over its limit at the last figure and the estimate exceeds what it has left |
| `LimiterSafety.LimiterEstimateExactly` | src/rate_limit.rs:96-117 | the same for the estimate of a group in the whole limiter, exactly |
| `LimiterSafety.LimiterEstimateIsSafe` | src/rate_limit.rs:96-117 | and its safety after a figure above zero |
| `Headers.MergeIsPerName` | src/cache.rs:185-216 | a merged header map has, name by name, the stored values for what describes the body, else the 304's, else the stored; its budget headers are the 304's |
| `Headers.StripBudgetHeaders` | src/cache.rs:250-264 | the removal loop takes out the budget headers and nothing else |
| `Headers.MergeHeaders` | src/cache.rs:195-212 | the remove-and-append loop lays the 304's values, in order, over the stored ones |
| `Cache.CachedResponse.Revalidate` | src/cache.rs:185-216 | a 304 updates expiry, tag and headers in place, and the answer alone keeps the 304's budget headers |
| `Cache.MemoryCache.Insert` | src/cache.rs:291-298 | a new key in a full cache first evicts what is not fresh |
| `Cache.MemoryCache.Remove` | src/cache.rs:300-302 | one key goes |
| `Cache.MemoryCache.PerformAll` | src/cache.rs:285-303 | any operations of other requests, one after another, do what they do on values |
| `Cache.BoundedExactly` | src/cache.rs:266-271 | over any operations in time order the cache never holds more than 8192 entries if and only if the fresh entries, counting each new one, never outnumber that |
| `Cache.LimitPassed` | src/cache.rs:291-298 | one fresh page more than the limit, put one after another, is kept |
| `Cache.KeptWhileRoom` | src/cache.rs:291-298 | while there is room nothing is forgotten, fresh or not, over any operations |
| `Cache.BoundedRefinesIdeal` | src/cache.rs:286-303 | after any operations in time order the evicting cache agrees with one that never evicts on every fresh entry, and holds nothing else |
| `Clients.Client.Exec` | src/hooks.rs:48-116 | a fresh hit touches neither limiter nor cache; otherwise the request waits, with others using the limiter and the cache, and once let in the limiter is asked for a reservation, told of the answer, and given the reservation back, in that order and to that effect, and what the others left of the cache, and the reply, become what the answer calls for |
| `Clients.Client.Consult` | src/hooks.rs:57-66 | serve a fresh entry, as stored but for the headers of its moment, else send with the entry's tag unless the caller brought one |
| `Clients.Client.Send` | src/hooks.rs:67-82 | the network part runs under a reservation recorded before it is given back, with others using the limiter before and during it |
| `Clients.Client.Handle` | src/hooks.rs:84-115 | a 304 revalidates and is answered with the stored page and the 304's other headers, a success replaces or drops, anything else leaves the cache alone; all but the 304 reach the caller as they came |
| `Answers.HitIsAsStored` | src/cache.rs:234-238 | a hit has the entry's status, body and every header but those of the moment it was sent, and the marker |
| `Answers.RevalidatedIsBoth` | src/cache.rs:191-232 | the answer to a 304 has the stored status, body and the five headers that describe it, every other header of the 304 with all its values, the stored ones otherwise, and the marker |
| `Answers.ServedWhileGood` | src/cache.rs:321-344 | a stored answer is served without asking exactly while it is younger than its `Expires` less its `Date`, and than a day; then the next request asks with its tag |
| `Answers.GoodAgain` | src/cache.rs:191-194 | a 304 makes the entry good for as long as it says, or leaves its expiry alone |
| `Answers.StoredAgain` | src/cache.rs:195-216 | and the entry holds, header by header, what was answered but for the headers of the moment |
| `Answers.PageComesBack` | src/hooks.rs:53-95 | a page sent with a tag, asked for again when no longer good and confirmed by a 304 comes back with its status, body and what describes it, and the 304's own values elsewhere |
| `Clients.NothingStaysReserved` | src/hooks.rs:70-82 | whatever happened between admission and answer, a finished request leaves in flight in every bucket exactly what the others still hold |
| `Clients.NothingStaysReservedAlone` | src/hooks.rs:70-82 | alone, it leaves every bucket's tokens in flight as it found them |
| `ClientRuns.NextStaysRight` | src/hooks.rs:53-114 | every step of every interleaving keeps stored entries, pending requests and past answers right |
| `ClientRuns.ReachableIsRight` | src/hooks.rs:53-114 | every hit and resurrected answer carries a status, body and body-describing headers the server sent in full for that key, and its marker; a resurrected one has the server's content when it said 304 and the 304's other headers; every hit is within the lifetime, and a day, of a 200 or 304; no stored entry has budget headers |
| `ClientRuns.ResurrectedIsRight` | src/cache.rs:185-216 | an answer resurrected by a 304 has the current content, as it was described when sent, and every other header of the 304, exactly its budget headers among them |
| `ClientRuns.ResurrectedExactly` | src/cache.rs:241-247 | whatever tags callers set, an answer resurrected by a 304 has the server's current status and body if and only if the tag it was asked with stands for what the stale entry holds |
| `ClientRuns.AsksOnlyWhenNothingIsFresh` | src/hooks.rs:58-66 | a request goes out exactly when not even a cache that never evicts had a fresh entry |
| `ClientRuns.WrongBody` | src/cache.rs:241-247 | a caller's own tag that is current passes the old body off as the new one |
| `ClientRuns.CoherentExactly` | src/cache.rs:241-247 | every run is coherent if and only if callers set no tag of their own |
| `CacheOrder.EditionsAreTrue` | src/hooks.rs:53-114 | in every run without callers' tags the page stored under a key and each page handed out, by a hit, an answer in full or a 304, is the numbered edition it is said to be; without overlapping requests for a key no edition is handed out after a newer one |
| `CacheOrder.OldPageAgain` | src/hooks.rs:84-115 | two overlapping requests, the older answer handled last: a later hit serves the older page although the newer one has been handed out |
| `CacheOrder.InOrderExactly` | src/hooks.rs:84-115 | given two tags the server may use, pages are handed out in order in every run if and only if requests for one key do not overlap |
| `JsonTrees.EscapeRoundTrip` | build_support/normalize.rs:162-163 | every key, with `~` and `/` or not, survives escaping and unescaping |
| `JsonTrees.EscapedOneByOne` | build_support/normalize.rs:162-163 | `~` is written `~0`, `/` is written `~1`, and every other character as it is |
| `JsonTrees.PointerParses` | build_support/normalize.rs:158-179 | a printed path parses back to its tokens |
| `JsonTrees.PointerRoundTrip` | build_support/normalize.rs:158-179 | a printed pointer evaluates to exactly the node its path leads to |
| `JsonTrees.PointersDiffer` | build_support/normalize.rs:158-179 | different nodes of a tree have different pointers |
| `UnionBranches.BranchList.Collect` | build_support/normalize.rs:157-179 | the walk appends the pointer of every union branch at any depth, each exactly once, in whatever order members are visited |
| `UnionBranches.CollectedPointers` | build_support/normalize.rs:157-179 | every collected pointer evaluates to its branch and no two are equal |
| `Unions.MarkedThenFixed` | build_support/normalize.rs:139-147 | fixing one branch does not change the finished tree |
| `Unions.NothingToFix` | build_support/normalize.rs:116-155 | a tree without fixable branches is finished |
| `Unions.FixedBranch` | build_support/normalize.rs:104-109 | each branch of the finished tree is a branch of the original at the same place, fixed |
| `Unions.FixedConstraint` | build_support/normalize.rs:181-195 | finishing changes how a node is constrained only where a lone property became required |
| `Unions.FixedIsDone` | build_support/normalize.rs:104-109 | no fixable branch is left, however the unions nest |
| `Unions.BranchesDiscriminate` | build_support/normalize.rs:97-109 | by required keys, a branch the rule fixes took every object before and takes exactly those with its key after; any other branch takes what it took |
| `Unions.BranchesToldApart` | build_support/normalize.rs:97-109 | of two fixed branches with different keys, which both took every object, an object with one key is taken by that one's alone |
| `Unions.FixedTwice` | build_support/normalize.rs:116-155 | the rewrite is idempotent |
| `UnionSteps.Elsewhere` | build_support/normalize.rs:141-147 | apart from its new `required` list a fix removes and adds no node, and makes none worse |
| `UnionSteps.MarkedResolves` | build_support/normalize.rs:128-131 | after a fix a pointer, a reference's target included, names what it named before and no worse, or goes into the new list |
| `UnionSteps.MarkedIsProgress` | build_support/normalize.rs:139-147 | fixing one branch makes no other node under-constrained and creates no branch |
| `UnionSteps.StillLeads` | build_support/normalize.rs:121-124 | a collected pointer leads to its own branch or nowhere, even after earlier fixes replaced what was around it |
| `UnionSteps.ObstacleWasThere` | build_support/normalize.rs:125-151 | what is reported late was true from the start |
| `UnionSteps.PassFixes` | build_support/normalize.rs:141-147 | a fix keeps every earlier branch accounted for |
| `UnionSteps.PassIsRight` | build_support/normalize.rs:116-155 | in whatever order the branches come, the pass finishes the tree, every branch, or its reference's target, is constrained or named, and nothing is named without ground |
| `UnionReports.TargetExactly` | build_support/normalize.rs:128-131 | a pointer names an under-constrained node of the finished tree if and only if it named one before and neither ends at a fixed branch nor goes through its replaced `required` |
| `UnionReports.ReportStandsExactly` | build_support/normalize.rs:125-151 | what was reported of a branch holds of the finished tree if and only if the fixes spared the branch and the reference's target |
| `UnionReports.OutlivedReportExists` | build_support/normalize.rs:125-147 | a tree whose first branch refers to its second: the reference is reported, then its target is fixed |
| `Normalizer.Spec.RequireUnionDiscriminants` | build_support/normalize.rs:116-155 | in place: exactly the pass over the collected branches, hence the finished tree; in the terms of the description, no item of a `oneOf` or `anyOf` list is left an object with properties and nothing required, or a reference to one, unless reported with the reason, every report had that ground, and nothing changes but that such an item with one property requires it |
| `UnionOutcome.PassInPlainTerms` | build_support/normalize.rs:94-115 | the same of the pass on values, in whatever order the branches come |
| `UnionOutcome.FixedChangesOnly` | build_support/normalize.rs:139-147 | node by node, whatever is not such an item, or in the `required` list it had, is as it was |
| `Normalizer.RewriteTable` | build_support/normalize.rs:44-65 | the two loops leave the rewritten table |
| `Normalizer.Spec.NormalizeResponses` | build_support/normalize.rs:10-67 | in place: the table of every operation of every path rewritten |
| `Responses.AnswersExactly` | build_support/normalize.rs:26-35 | a status keeps its answer, by code, range or default, if and only if it is an error, or did not rest on what was removed |
| `Responses.OneSuccess` | build_support/normalize.rs:32-54 | at most one success is left, `200` where there were several, none where it was not among them |
| `Responses.RewrittenTwice` | build_support/normalize.rs:36-67 | rewriting a table again changes nothing |
| `Responses.ErrorAnswersKept` | build_support/normalize.rs:26-30 | no operation's answer to any 4xx or 5xx status changes, under any of the eight methods |
| `Responses.RestUntouched` | build_support/normalize.rs:10-24 | everything away from the response tables of the eight methods is as it was |
| `Responses.NormalizedTwice` | build_support/normalize.rs:36-67 | normalising a whole description again changes nothing |
| `Auth.Authenticator.AccessToken` | src/auth.rs:629-665 | the held token, a refreshed one, or the error, with the kept tokens and the one event the listener hears |
| `Auth.NextStaysInStep` | src/auth.rs:635-665 | every step keeps the client's refresh token in step with the server's |
| `Auth.RefreshChain` | src/auth.rs:629-665 | in every run without lost replies each refresh presents the valid token, the listener stores token sets in the order issued, with the expiry each response gave or the token's own claim, and none is sent before an earlier success comes within a minute of that expiry |
| `Auth.CallersAreServed` | src/auth.rs:629-665 | in every run, whatever is lost, a caller gets the held token exactly when its expiry is unknown or more than sixty seconds away; otherwise its refresh goes out at that instant with the held refresh token, or it is told there is none; the listener hears of every failure with its reason, in order, and callers get the access tokens it was told to store |
| `Auth.DeadTokenAfterLoss` | src/auth.rs:645-661 | whatever the expiry, a rotation whose reply is lost makes the next refresh present a dead token |
| `Auth.PresentsValidExactly` | src/auth.rs:485-503 | for any starting tokens, every refresh of every run presents the valid token if and only if there is nothing to refresh with or for, or the client starts with the valid one and no reply can be lost |

## Left out

- 32-bit widths of tokens, and 64-bit instants: tokens in flight and the sum of spends (src/rate_limit.rs:127) are unbounded, and adding a delay to an instant never overflows.
- Headline.NeverOverdrawsExactly: limits and windows, the bucket's and the server's, do not change during a run, and headers that state a limit state the bucket's; limits that change are covered for conservation alone, by `LimiterModel.RunStaysSound`, which says nothing of overdrawing.
- SharedGroup.EstimateExactly: the server's window is the bucket's.
- SharedGroup.EstimateIsSafe: delivery is prompt; with delayed figures even a client alone can be misled, by `Overdraws.OverdrawWithDelay`.
- RateLimiters.RateLimiter.Acquire: what others do during a sleep takes effect before the next poll, at the instants it names.
- Unions.BranchesDiscriminate: looks at required keys alone, not at the schemas of the properties.
- Unions.BranchesToldApart: likewise.
- Clients.Client.Exec: what others do to the cache takes effect between the lookup and the answer's handling.
- Normalizer.Spec.RequireUnionDiscriminants: reports are the pointer and its cause; their wording and the build's warnings are not modelled.
- UnionBranches.BranchList.Collect: object members are visited in no particular order, because whether the parsed order is kept depends on a library feature.
- The error-limit limiter (src/limiter.rs) waited on before the rate limit: one overwritten value and one sleep.
- Rewriting error bodies (src/hooks.rs:119-125), and a body that fails to arrive after its headers.
- Parsing of HTTP dates: `Expires` and `Date` are optional integers; the subtraction, the zero test and the one-day cap are kept.
- Building cache keys from requests and reading a token's claims: the principal is an optional string.
- Header order across names, and header values that are not text.
- `strip_compatibility_date_param`: one filter over each operation's parameters.
- Custom cache implementations, crashes, poisoned locks and clocks that run backwards.
- Numbers in JSON other than integers, which no rewrite looks at.
