/** One character's tokens, refreshed under a lock against a server that may
    rotate the refresh token on every use. */
module Auth {
  import opened Prelude

  const REFRESH_MARGIN: nat := 60 * 1_000_000_000

  datatype TokenSet = TokenSet(access: string, refresh: Option<string>, expiresAt: Option<nat>)

  /** A token response: `lifetime` is `expires_in`, `jwtExpiry` the access token's own claim. */
  datatype Grant = Grant(access: string, refresh: Option<string>, lifetime: Option<nat>, jwtExpiry: Option<nat>)

  datatype AuthError = Rejected(code: string) | Unreachable | NoRefreshToken

  datatype Result<+T> = Ok(value: T) | Err(error: AuthError)

  /** What the listener is told. */
  datatype Event = Refreshed(tokens: TokenSet) | RefreshFailed(tokens: TokenSet, error: AuthError)

  predicate ExpiresWithin(t: TokenSet, margin: nat, now: nat) {
    t.expiresAt.Some? && now + margin >= t.expiresAt.value
  }

  /** When the access token expires, by the response or else by its own claim. */
  function Expiry(g: Grant, now: nat): Option<nat> {
    if g.lifetime.Some? then Some(now + g.lifetime.value) else g.jwtExpiry
  }

  /** The tokens a response stands for; a response without a refresh token keeps the presented one. */
  function FromGrant(g: Grant, presented: string, now: nat): TokenSet {
    TokenSet(g.access, Some(if g.refresh.Some? then g.refresh.value else presented), Expiry(g, now))
  }

  /** What a caller does on getting the lock. */
  datatype Entry = Return(access: string) | GiveUp | Present(refresh: string)

  function OnEntry(t: TokenSet, now: nat): Entry {
    if !ExpiresWithin(t, REFRESH_MARGIN, now) then Return(t.access)
    else if t.refresh.None? then GiveUp
    else Present(t.refresh.value)
  }

  /** The tokens kept and the event told once an answer is in. */
  function OnAnswer(t: TokenSet, presented: string, answer: Result<Grant>, now: nat): (TokenSet, Event) {
    match answer
    case Ok(g) => (FromGrant(g, presented, now), Refreshed(FromGrant(g, presented, now)))
    case Err(e) => (t, RefreshFailed(t, e))
  }

  /** What the refreshing caller gets. */
  function Returned(kept: TokenSet, answer: Result<Grant>): Result<string> {
    match answer
    case Ok(_) => Ok(kept.access)
    case Err(e) => Err(e)
  }

  class Authenticator {
    var tokens: TokenSet
    var heard: seq<Event>

    constructor (tokens: TokenSet)
      ensures this.tokens == tokens && heard == []
    {
      this.tokens := tokens;
      heard := [];
    }

    /** A currently valid access token, refreshed first if it expires within the
        margin. The lock is held throughout, so the call is one step;
        `exchange` is the token endpoint and `answeredAt` when it has answered. */
    method AccessToken(now: nat, answeredAt: nat, exchange: string -> Result<Grant>) returns (r: Result<string>)
      modifies this
      ensures match OnEntry(old(tokens), now)
              case Return(access) => r == Ok(access) && tokens == old(tokens) && heard == old(heard)
              case GiveUp =>
                r == Err(NoRefreshToken) && tokens == old(tokens)
                && heard == old(heard) + [RefreshFailed(old(tokens), NoRefreshToken)]
              case Present(refresh) =>
                var (kept, event) := OnAnswer(old(tokens), refresh, exchange(refresh), answeredAt);
                && tokens == kept && heard == old(heard) + [event]
                && r == Returned(kept, exchange(refresh))
    {
      if ExpiresWithin(tokens, REFRESH_MARGIN, now) {
        if tokens.refresh.None? {
          heard := heard + [RefreshFailed(tokens, NoRefreshToken)];
          return Err(NoRefreshToken);
        }
        var presented := tokens.refresh.value;
        var answer := exchange(presented);
        match answer
        case Ok(g) =>
          tokens := FromGrant(g, presented, answeredAt);
          heard := heard + [Refreshed(tokens)];
        case Err(e) =>
          heard := heard + [RefreshFailed(tokens, e)];
          return Err(e);
      }
      r := Ok(tokens.access);
    }
  }

  // ----- runs -----

  /** The lock: free, or held by a caller whose refresh is under way. */
  datatype Lock = Free | Waiting(presented: string) | Replied(presented: string, answer: Result<Grant>)

  /** A refresh sent: the token presented, the one valid at the server, and when. */
  datatype Sending = Sending(presented: string, valid: string, at: nat)

  /** A refresh granted: the response, and the token valid at the server from then on. */
  datatype Issue = Issue(grant: Grant, valid: string)

  /** A refresh that succeeded: when, until when, and how many had been sent by then. */
  datatype Success = Success(at: nat, expiresAt: Option<nat>, sent: nat)

  /** What a caller found on getting the lock, and what became of the call then:
      the answer there and then, or the refresh it sent, by its place among those sent. */
  datatype Call = Call(at: nat, held: TokenSet, became: Became)
  datatype Became = Done(result: Result<string>) | Sent(k: nat)

  /** `calls`: those that got the lock; `returned`: what the refreshing ones came
      back with; `failures`: why refreshes failed, as the server or the network
      said it, or for want of a refresh token. */
  datatype System = System(
    now: nat,
    tokens: TokenSet,
    lock: Lock,
    valid: string,
    sent: seq<Sending>,
    issued: seq<Issue>,
    heard: seq<Event>,
    successes: seq<Success>,
    calls: seq<Call>,
    returned: seq<Result<string>>,
    failures: seq<AuthError>)

  datatype Step = Tick(elapsed: nat) | Enter | Process(grant: Grant) | Fail(error: AuthError) | LoseReply | Receive

  function Start(tokens: TokenSet, valid: string): System {
    System(0, tokens, Free, valid, [], [], [], [], [], [], [])
  }

  function Next(lossy: bool, s: System, step: Step): Option<System> {
    match step
    case Tick(elapsed) => Some(s.(now := s.now + elapsed))
    case Enter =>
      if !s.lock.Free? then None else
      (match OnEntry(s.tokens, s.now)
       case Return(access) => Some(s.(calls := s.calls + [Call(s.now, s.tokens, Done(Ok(access)))]))
       case GiveUp =>
         Some(s.(heard := s.heard + [RefreshFailed(s.tokens, NoRefreshToken)],
                 calls := s.calls + [Call(s.now, s.tokens, Done(Err(NoRefreshToken)))],
                 failures := s.failures + [NoRefreshToken]))
       case Present(refresh) =>
         Some(s.(lock := Waiting(refresh), sent := s.sent + [Sending(refresh, s.valid, s.now)],
                 calls := s.calls + [Call(s.now, s.tokens, Sent(|s.sent|))])))
    case Process(grant) =>
      if !s.lock.Waiting? then None
      else if s.lock.presented != s.valid then
        Some(s.(lock := Replied(s.lock.presented, Err(Rejected("invalid_grant")))))
      else
        var valid := if grant.refresh.Some? then grant.refresh.value else s.valid;
        Some(s.(lock := Replied(s.lock.presented, Ok(grant)), valid := valid,
                issued := s.issued + [Issue(grant, valid)]))
    case Fail(error) => if s.lock.Waiting? then Some(s.(lock := Replied(s.lock.presented, Err(error)))) else None
    case LoseReply => if lossy && s.lock.Replied? then Some(s.(lock := s.lock.(answer := Err(Unreachable)))) else None
    case Receive =>
      if !s.lock.Replied? then None else
      var (tokens, event) := OnAnswer(s.tokens, s.lock.presented, s.lock.answer, s.now);
      Some(s.(tokens := tokens, lock := Free, heard := s.heard + [event],
              returned := s.returned + [Returned(tokens, s.lock.answer)],
              failures := if s.lock.answer.Err? then s.failures + [s.lock.answer.error] else s.failures,
              successes := if s.lock.answer.Ok?
                           then s.successes + [Success(s.now, tokens.expiresAt, |s.sent|)] else s.successes))
  }

  function Run(lossy: bool, s: System, steps: seq<Step>): Option<System>
    decreases |steps|
  {
    if steps == [] then Some(s)
    else var next := Next(lossy, s, steps[0]); if next.None? then None else Run(lossy, next.value, steps[1..])
  }

  ghost predicate Reachable(lossy: bool, tokens: TokenSet, valid: string, s: System) {
    exists steps :: Run(lossy, Start(tokens, valid), steps) == Some(s)
  }

  /** Every refresh presents the token then valid at the server. */
  ghost predicate AlwaysPresentsValid(s: System) {
    forall k :: 0 <= k < |s.sent| ==> s.sent[k].presented == s.sent[k].valid
  }

  /** The token sets the listener was told to store. */
  function Stored(heard: seq<Event>): seq<TokenSet> {
    if heard == [] then [] else StoredBy(heard[0]) + Stored(heard[1..])
  }

  function StoredBy(e: Event): seq<TokenSet> {
    if e.Refreshed? then [e.tokens] else []
  }

  lemma {:induction false} StoredAppend(heard: seq<Event>, e: Event)
    ensures Stored(heard + [e]) == Stored(heard) + StoredBy(e)
  {
    if heard == [] {
      assert heard + [e] == [e];
    } else {
      var first, last := StoredBy(heard[0]), StoredBy(e);
      assert (heard + [e])[1..] == heard[1..] + [e] && (heard + [e])[0] == heard[0];
      StoredAppend(heard[1..], e);
      assert first + (Stored(heard[1..]) + last) == first + Stored(heard[1..]) + last;
    }
  }

  /** A stored token set is the one the server issued, with the refresh token it
      then accepts and the expiry the response gave it when it came. */
  predicate Matches(t: TokenSet, i: Issue, success: Success) {
    && t.access == i.grant.access && t.refresh == Some(i.valid)
    && t.expiresAt == match (i.grant.lifetime, i.grant.jwtExpiry)
                      case (Some(lifetime), _) => Some(success.at + lifetime)
                      case (None, claim) => claim
  }

  /** The listener has stored what the server issued, in that order, up to a reply still on its way. */
  ghost predicate StoredInOrder(s: System) {
    var stored := Stored(s.heard);
    var pending := if s.lock.Replied? && s.lock.answer.Ok? then 1 else 0;
    && |s.issued| == |stored| + pending && |s.successes| == |stored|
    && (forall k :: 0 <= k < |stored| ==>
          Matches(stored[k], s.issued[k], s.successes[k]) && s.successes[k].expiresAt == stored[k].expiresAt)
  }

  /** No refresh goes out before the margin of any earlier success. */
  ghost predicate NeverEarly(s: System) {
    forall i, k :: 0 <= i < |s.successes| && s.successes[i].expiresAt.Some? && s.successes[i].sent <= k < |s.sent| ==>
      s.sent[k].at + 60_000_000_000 >= s.successes[i].expiresAt.value
  }

  ghost predicate InStep(s: System) {
    && AlwaysPresentsValid(s) && StoredInOrder(s) && NeverEarly(s)
    && (match s.lock
        case Free => s.tokens.refresh.Some? ==> s.tokens.refresh.value == s.valid
        case Waiting(p) => p == s.valid && s.tokens.refresh == Some(p)
        case Replied(p, Ok(g)) =>
          && s.valid == (if g.refresh.Some? then g.refresh.value else p)
          && s.issued != [] && s.issued[|s.issued| - 1] == Issue(g, s.valid)
        case Replied(p, Err(_)) => s.tokens.refresh == Some(p) && p == s.valid)
    && (forall i :: 0 <= i < |s.successes| && s.successes[i].expiresAt.Some? ==>
          || (s.successes[i].expiresAt.value <= s.now + REFRESH_MARGIN)
          || (s.lock.Free? && s.tokens.expiresAt == s.successes[i].expiresAt))
  }

  lemma {:induction false} EnterStaysInStep(s: System)
    requires InStep(s) && Next(false, s, Enter).Some?
    ensures InStep(Next(false, s, Enter).value)
  {
    if OnEntry(s.tokens, s.now).GiveUp? {
      StoredAppend(s.heard, RefreshFailed(s.tokens, NoRefreshToken));
    }
  }

  lemma {:induction false} ReceiveStores(s: System)
    requires InStep(s) && Next(false, s, Receive).Some?
    ensures StoredInOrder(Next(false, s, Receive).value)
  {
    var n := Next(false, s, Receive).value;
    StoredAppend(s.heard, OnAnswer(s.tokens, s.lock.presented, s.lock.answer, s.now).1);
    if s.lock.answer.Ok? {
      assert Stored(n.heard) == Stored(s.heard) + [n.tokens];
      assert Matches(n.tokens, s.issued[|s.issued| - 1], n.successes[|s.successes|]);
    }
  }

  lemma {:induction false} ReceiveStaysInStep(s: System)
    requires InStep(s) && Next(false, s, Receive).Some?
    ensures InStep(Next(false, s, Receive).value)
  {
    ReceiveStores(s);
  }

  lemma {:induction false} NextStaysInStep(s: System, step: Step)
    requires InStep(s) && Next(false, s, step).Some?
    ensures InStep(Next(false, s, step).value)
  {
    match step
    case Enter => EnterStaysInStep(s);
    case Receive => ReceiveStaysInStep(s);
    case _ =>
  }

  lemma {:induction false} RunStaysInStep(s: System, steps: seq<Step>)
    requires InStep(s) && Run(false, s, steps).Some?
    ensures InStep(Run(false, s, steps).value)
    decreases |steps|
  {
    if steps != [] {
      NextStaysInStep(s, steps[0]);
      RunStaysInStep(Next(false, s, steps[0]).value, steps[1..]);
    }
  }

  /** Under any interleaving of callers, with no reply lost: each refresh presents
      the valid token, the listener stores what was issued in order, and no
      refresh goes out while an earlier success is good for more than the margin. */
  lemma {:induction false} RefreshChain(tokens: TokenSet, valid: string, s: System)
    requires tokens.refresh.Some? ==> tokens.refresh.value == valid
    requires Reachable(false, tokens, valid, s)
    ensures AlwaysPresentsValid(s) && StoredInOrder(s) && NeverEarly(s)
  {
    var steps :| Run(false, Start(tokens, valid), steps) == Some(s);
    RunStaysInStep(Start(tokens, valid), steps);
  }

  /** A rotation whose reply is lost leaves the client presenting a dead token. */
  lemma {:induction false} DeadTokenAfterLoss(tokens: TokenSet, valid: string) returns (s: System)
    requires tokens.refresh == Some(valid) && tokens.expiresAt.Some?
    ensures Reachable(true, tokens, valid, s) && !AlwaysPresentsValid(s)
  {
    var tick, rotate := Tick(tokens.expiresAt.value), Process(Grant("", Some(valid + "+"), None, None));
    var s0 := Next(true, Start(tokens, valid), tick).value;
    var s1 := Next(true, s0, Enter).value;
    var s2 := Next(true, s1, rotate).value;
    var s3 := Next(true, s2, LoseReply).value;
    var s4 := Next(true, s3, Receive).value;
    s := Next(true, s4, Enter).value;
    assert |valid + "+"| != |valid|;
    assert Run(true, s4, [Enter]) == Some(s);
    assert Run(true, s3, [Receive, Enter]) == Some(s);
    assert Run(true, s2, [LoseReply, Receive, Enter]) == Some(s);
    assert Run(true, s1, [rotate, LoseReply, Receive, Enter]) == Some(s);
    assert Run(true, s0, [Enter, rotate, LoseReply, Receive, Enter]) == Some(s);
    assert Run(true, Start(tokens, valid), [tick, Enter, rotate, LoseReply, Receive, Enter]) == Some(s);
    assert s.sent[1].presented != s.sent[1].valid;
  }

  /** A refresh token that is not the server's is presented as soon as the access token expires. */
  lemma {:induction false} WrongFromTheStart(lossy: bool, tokens: TokenSet, valid: string) returns (s: System)
    requires tokens.refresh.Some? && tokens.refresh.value != valid && tokens.expiresAt.Some?
    ensures Reachable(lossy, tokens, valid, s) && !AlwaysPresentsValid(s)
  {
    var tick := Tick(tokens.expiresAt.value);
    var s0 := Next(lossy, Start(tokens, valid), tick).value;
    s := Next(lossy, s0, Enter).value;
    assert Run(lossy, s0, [Enter]) == Some(s);
    assert Run(lossy, Start(tokens, valid), [tick, Enter]) == Some(s);
    assert s.sent[0].presented != s.sent[0].valid;
  }

  /** Without a refresh token, or without an expiry, nothing is ever refreshed. */
  lemma {:induction false} NothingSent(lossy: bool, s: System, steps: seq<Step>)
    requires s.tokens.refresh.None? || s.tokens.expiresAt.None?
    requires s.lock.Free? && s.sent == [] && Run(lossy, s, steps).Some?
    ensures Run(lossy, s, steps).value.sent == []
    decreases |steps|
  {
    if steps != [] {
      NothingSent(lossy, Next(lossy, s, steps[0]).value, steps[1..]);
    }
  }

  /** Every refresh of every run presents the token valid at the server exactly
      when there is nothing to refresh with or for, or the client starts with the
      server's token and no reply can be lost after the server has rotated it. */
  lemma {:induction false} PresentsValidExactly(lossy: bool, tokens: TokenSet, valid: string)
    ensures (forall s :: Reachable(lossy, tokens, valid, s) ==> AlwaysPresentsValid(s)) <==>
              || tokens.refresh.None? || tokens.expiresAt.None?
              || (tokens.refresh.value == valid && !lossy)
  {
    if tokens.refresh.None? || tokens.expiresAt.None? {
      forall s | Reachable(lossy, tokens, valid, s) ensures AlwaysPresentsValid(s) {
        var steps :| Run(lossy, Start(tokens, valid), steps) == Some(s);
        NothingSent(lossy, Start(tokens, valid), steps);
      }
    } else if tokens.refresh.value != valid {
      var s := WrongFromTheStart(lossy, tokens, valid);
    } else if lossy {
      var s := DeadTokenAfterLoss(tokens, valid);
    } else {
      forall s | Reachable(lossy, tokens, valid, s) ensures AlwaysPresentsValid(s) {
        RefreshChain(tokens, valid, s);
      }
    }
  }

  // ----- what callers get -----

  /** The access token is good for more than a minute, as far as is known. */
  predicate LastsAMinute(t: TokenSet, now: nat) {
    t.expiresAt.None? || now + 60_000_000_000 < t.expiresAt.value
  }

  /** A caller gets the held token exactly when it lasts a minute; any other sends
      the held refresh token there and then, or, without one, is told so. */
  ghost predicate WellServed(s: System, c: Call) {
    if LastsAMinute(c.held, c.at) then c.became == Done(Ok(c.held.access))
    else if c.held.refresh.None? then c.became == Done(Err(NoRefreshToken))
    else
      && c.became.Sent? && c.became.k < |s.sent|
      && s.sent[c.became.k].at == c.at && s.sent[c.became.k].presented == c.held.refresh.value
  }

  /** The errors the listener heard of. */
  function Errors(heard: seq<Event>): seq<AuthError> {
    if heard == [] then []
    else (if heard[0].RefreshFailed? then [heard[0].error] else []) + Errors(heard[1..])
  }

  lemma {:induction false} ErrorsAppend(heard: seq<Event>, e: Event)
    ensures Errors(heard + [e]) == Errors(heard) + if e.RefreshFailed? then [e.error] else []
  {
    if heard == [] {
      assert heard + [e] == [e];
    } else {
      assert (heard + [e])[1..] == heard[1..] + [e] && (heard + [e])[0] == heard[0];
      ErrorsAppend(heard[1..], e);
    }
  }

  /** The grants handed over to callers, and the tokens they got for them. */
  ghost predicate ReturnedInOrder(s: System) {
    var tokens := Stored(s.heard);
    && |Passed(s.returned)| == |tokens|
    && forall k :: 0 <= k < |tokens| ==> Passed(s.returned)[k] == tokens[k].access
  }

  function Passed(returned: seq<Result<string>>): seq<string> {
    if returned == [] then []
    else (if returned[0].Ok? then [returned[0].value] else []) + Passed(returned[1..])
  }

  lemma {:induction false} PassedAppend(returned: seq<Result<string>>, r: Result<string>)
    ensures Passed(returned + [r]) == Passed(returned) + if r.Ok? then [r.value] else []
  {
    if returned == [] {
      assert returned + [r] == [r];
    } else {
      assert (returned + [r])[1..] == returned[1..] + [r] && (returned + [r])[0] == returned[0];
      PassedAppend(returned[1..], r);
    }
  }

  /** Every call so far was well served, the listener heard of every failure with its
      reason, in order, and callers got the tokens the listener was told to store. */
  ghost predicate AllTold(s: System) {
    && (forall c :: c in s.calls ==> WellServed(s, c))
    && Errors(s.heard) == s.failures
    && ReturnedInOrder(s)
  }

  lemma {:induction false} EnterServesWell(lossy: bool, s: System)
    requires Next(lossy, s, Enter).Some? && forall c :: c in s.calls ==> WellServed(s, c)
    ensures var n := Next(lossy, s, Enter).value; forall c :: c in n.calls ==> WellServed(n, c)
  {
    var n := Next(lossy, s, Enter).value;
    var last := n.calls[|s.calls|];
    assert n.calls == s.calls + [last] && WellServed(n, last);
    forall c | c in s.calls ensures WellServed(n, c) {
      assert WellServed(s, c);
    }
  }

  lemma {:induction false} EnterStaysTold(lossy: bool, s: System)
    requires AllTold(s) && Next(lossy, s, Enter).Some?
    ensures AllTold(Next(lossy, s, Enter).value)
  {
    EnterServesWell(lossy, s);
    StoredAppend(s.heard, RefreshFailed(s.tokens, NoRefreshToken));
    ErrorsAppend(s.heard, RefreshFailed(s.tokens, NoRefreshToken));
  }

  lemma {:induction false} ReceiveReturns(lossy: bool, s: System)
    requires ReturnedInOrder(s) && Next(lossy, s, Receive).Some?
    ensures ReturnedInOrder(Next(lossy, s, Receive).value)
  {
    var (tokens, event) := OnAnswer(s.tokens, s.lock.presented, s.lock.answer, s.now);
    StoredAppend(s.heard, event);
    PassedAppend(s.returned, Returned(tokens, s.lock.answer));
  }

  lemma {:induction false} ReceiveStaysTold(lossy: bool, s: System)
    requires AllTold(s) && Next(lossy, s, Receive).Some?
    ensures AllTold(Next(lossy, s, Receive).value)
  {
    var n := Next(lossy, s, Receive).value;
    ReceiveReturns(lossy, s);
    ErrorsAppend(s.heard, OnAnswer(s.tokens, s.lock.presented, s.lock.answer, s.now).1);
    assert n.calls == s.calls && n.sent == s.sent;
    forall c | c in n.calls ensures WellServed(n, c) {
      assert WellServed(s, c);
    }
  }

  lemma {:induction false} NextStaysTold(lossy: bool, s: System, step: Step)
    requires AllTold(s) && Next(lossy, s, step).Some?
    ensures AllTold(Next(lossy, s, step).value)
  {
    match step
    case Enter => EnterStaysTold(lossy, s);
    case Receive => ReceiveStaysTold(lossy, s);
    case _ =>
  }

  lemma {:induction false} RunStaysTold(lossy: bool, s: System, steps: seq<Step>)
    requires AllTold(s) && Run(lossy, s, steps).Some?
    ensures AllTold(Run(lossy, s, steps).value)
    decreases |steps|
  {
    if steps != [] {
      NextStaysTold(lossy, s, steps[0]);
      RunStaysTold(lossy, Next(lossy, s, steps[0]).value, steps[1..]);
    }
  }

  /** Whatever is lost and whatever tokens there are to begin with: in every run each
      caller gets the held access token exactly when it is good for more than a
      minute or its expiry is unknown; otherwise a refresh goes out at that instant,
      or the caller is told there is no refresh token; and listener and callers
      are told alike how each refresh ended. */
  lemma {:induction false} CallersAreServed(lossy: bool, tokens: TokenSet, valid: string, s: System)
    requires Reachable(lossy, tokens, valid, s)
    ensures forall c :: c in s.calls ==>
              && WellServed(s, c)
              && (c.became == Done(Ok(c.held.access)) <==>
                    c.held.expiresAt.None? || c.at + 60_000_000_000 < c.held.expiresAt.value)
    ensures Errors(s.heard) == s.failures && ReturnedInOrder(s)
  {
    var steps :| Run(lossy, Start(tokens, valid), steps) == Some(s);
    RunStaysTold(lossy, Start(tokens, valid), steps);
  }
}
