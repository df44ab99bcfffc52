/** What the server and the client each know about every request of one group. */
module Ledger {
  import opened Prelude
  import opened BucketModel

  /** One request's life, or a charge the client has no record of: some other
      user's, or that of a request whose answer never came. */
  datatype Request =
    | Reserved(cost: nat)
    | Charged(cost: nat, at: nat, tokens: nat, report: Option<nat>)
    | Answered(cost: nat, at: nat, tokens: nat, recordedAt: nat)
    | Closed(at: nat, tokens: nat, recordedAt: nat)
    | Abandoned
    | Unseen(at: nat, tokens: nat)

  /** The quantities summed over a ledger. */
  datatype Measure =
    | InWindow(window: nat, t: nat)      // what the server counts as spent at t
    | Others(window: nat, t: nat)        // the part of it the client has no record of
    | Noted(window: nat, t: nat)         // what the client's own records say is spent at t
    | Within(window: nat, t: nat)        // what was charged in the window that ended at t
    | Unrecorded                         // what answers still outstanding could cost
    | Held                               // reservations not yet given back

  function Weigh(m: Measure, r: Request): nat {
    match m
    case InWindow(w, t) =>
      if (r.Charged? || r.Answered? || r.Closed? || r.Unseen?) && r.at + w > t then r.tokens else 0
    case Others(w, t) => if r.Unseen? && r.at + w > t then r.tokens else 0
    case Noted(w, t) => if (r.Answered? || r.Closed?) && r.recordedAt + w > t then r.tokens else 0
    case Within(w, t) =>
      if (r.Charged? || r.Answered? || r.Closed? || r.Unseen?) && r.at <= t < r.at + w then r.tokens else 0
    case Unrecorded => if r.Reserved? || r.Charged? then MAX_REQUEST_COST else 0
    case Held => if r.Reserved? || r.Charged? || r.Answered? then r.cost else 0
  }

  function Sum(m: Measure, ledger: seq<Request>): nat {
    if ledger == [] then 0 else Weigh(m, ledger[0]) + Sum(m, ledger[1..])
  }

  lemma {:induction false} SumAppend(m: Measure, ledger: seq<Request>, r: Request)
    ensures Sum(m, ledger + [r]) == Sum(m, ledger) + Weigh(m, r)
  {
    if ledger == [] {
      assert ledger + [r] == [r];
    } else {
      assert (ledger + [r])[1..] == ledger[1..] + [r];
      SumAppend(m, ledger[1..], r);
    }
  }

  lemma {:induction false} SumOfTwo(m: Measure, a: Request, b: Request)
    ensures Sum(m, [a]) == Weigh(m, a)
    ensures Sum(m, [a, b]) == Weigh(m, a) + Weigh(m, b)
  {
    assert [a][1..] == [];
    assert [a, b][1..] == [b] && [b][1..] == [];
  }

  lemma {:induction false} SumOfThree(m: Measure, a: Request, b: Request, c: Request)
    ensures Sum(m, [a, b, c]) == Weigh(m, a) + Weigh(m, b) + Weigh(m, c)
  {
    assert [a, b, c][1..] == [b, c];
    SumOfTwo(m, b, c);
  }

  lemma {:induction false} SumUpdate(m: Measure, ledger: seq<Request>, i: nat, r: Request)
    requires i < |ledger|
    ensures Sum(m, ledger[i := r]) == Sum(m, ledger) - Weigh(m, ledger[i]) + Weigh(m, r)
    ensures Sum(m, ledger) >= Weigh(m, ledger[i])
  {
    if i == 0 {
      assert ledger[i := r][1..] == ledger[1..];
    } else {
      assert ledger[i := r][1..] == ledger[1..][i - 1 := r];
      SumUpdate(m, ledger[1..], i - 1, r);
    }
  }

  /** A request at the end of `before`, charged once others have followed it. */
  lemma {:induction false} ChargedInTheMiddle(before: seq<Request>, after: seq<Request>, r: Request, charge: Request,
                                              w: nat, t: nat)
    requires before + [r] <= after && Weigh(InWindow(w, t), r) == 0
    ensures after[|before|] == r && before <= after[|before| := charge]
    ensures Sum(InWindow(w, t), after[|before| := charge]) - Sum(InWindow(w, t), after) == Weigh(InWindow(w, t), charge)
    ensures Sum(InWindow(w, t), before + [r]) == Sum(InWindow(w, t), before)
  {
    assert after[|before|] == (before + [r])[|before|];
    assert before == (before + [r])[..|before|] == after[..|before| + 1][..|before|];
    SumUpdate(InWindow(w, t), after, |before|, charge);
    SumAppend(InWindow(w, t), before, r);
  }

  lemma {:induction false} SumFades(ledger: seq<Request>, w: nat, t1: nat, t2: nat)
    requires t1 <= t2
    ensures Sum(InWindow(w, t2), ledger) <= Sum(InWindow(w, t1), ledger)
    ensures Sum(Others(w, t2), ledger) <= Sum(Others(w, t1), ledger)
  {
    if ledger != [] {
      SumFades(ledger[1..], w, t1, t2);
    }
  }

  lemma {:induction false} NotedFades(ledger: seq<Request>, w: nat, t1: nat, t2: nat)
    requires t1 <= t2
    ensures Sum(Noted(w, t2), ledger) <= Sum(Noted(w, t1), ledger)
  {
    if ledger != [] {
      NotedFades(ledger[1..], w, t1, t2);
    }
  }

  lemma {:induction false} HeldCoversUnrecorded(ledger: seq<Request>)
    requires forall r :: r in ledger && (r.Reserved? || r.Charged?) ==> r.cost >= MAX_REQUEST_COST
    ensures Sum(Unrecorded, ledger) <= Sum(Held, ledger)
  {
    if ledger != [] {
      assert ledger[0] in ledger;
      HeldCoversUnrecorded(ledger[1..]);
    }
  }

  /** With nothing held nothing is outstanding. */
  lemma {:induction false} NothingOutstanding(ledger: seq<Request>)
    requires forall r :: r in ledger && (r.Reserved? || r.Charged?) ==> r.cost > 0
    requires Sum(Held, ledger) == 0
    ensures Sum(Unrecorded, ledger) == 0
  {
    if ledger != [] {
      assert ledger[0] in ledger;
      NothingOutstanding(ledger[1..]);
    }
  }

  /** What the server counts is noted, or covered by a reservation, or not ours. */
  lemma {:induction false} ServerCountIsCovered(ledger: seq<Request>, w: nat, t: nat)
    requires forall r :: r in ledger && r.Charged? ==> r.tokens <= MAX_REQUEST_COST
    requires forall r :: r in ledger && (r.Answered? || r.Closed?) ==> r.at <= r.recordedAt
    ensures Sum(InWindow(w, t), ledger)
         <= Sum(Noted(w, t), ledger) + Sum(Unrecorded, ledger) + Sum(Others(w, t), ledger)
  {
    if ledger != [] {
      assert ledger[0] in ledger;
      ServerCountIsCovered(ledger[1..], w, t);
    }
  }

  /** With every charge noted at its own instant the two windows agree. */
  lemma {:induction false} PromptServerCount(ledger: seq<Request>, w: nat, t: nat)
    requires forall r :: r in ledger ==> !r.Charged?
    requires forall r :: r in ledger && (r.Answered? || r.Closed?) ==> r.at == r.recordedAt
    ensures Sum(InWindow(w, t), ledger) == Sum(Noted(w, t), ledger) + Sum(Others(w, t), ledger)
  {
    if ledger != [] {
      assert ledger[0] in ledger;
      PromptServerCount(ledger[1..], w, t);
    }
  }

  /** A shorter window holds no more. */
  lemma {:induction false} ShorterWindow(ledger: seq<Request>, short: nat, long: nat, t: nat)
    requires short <= long
    ensures Sum(InWindow(short, t), ledger) <= Sum(InWindow(long, t), ledger)
    ensures Sum(Within(short, t), ledger) <= Sum(Within(long, t), ledger)
  {
    if ledger != [] {
      ShorterWindow(ledger[1..], short, long, t);
    }
  }

  /** Once nothing later than `t` is charged the two ways to count agree. */
  lemma {:induction false} WindowEndingNow(ledger: seq<Request>, w: nat, t: nat)
    requires forall r :: r in ledger && (r.Charged? || r.Answered? || r.Closed? || r.Unseen?) ==> r.at <= t
    ensures Sum(InWindow(w, t), ledger) == Sum(Within(w, t), ledger)
  {
    if ledger != [] {
      assert ledger[0] in ledger;
      WindowEndingNow(ledger[1..], w, t);
    }
  }

  /** While nothing is charged, a window that ends later holds no more. */
  lemma {:induction false} WithinFades(ledger: seq<Request>, w: nat, now: nat, t: nat)
    requires forall r :: r in ledger && (r.Charged? || r.Answered? || r.Closed? || r.Unseen?) ==> r.at <= now
    requires now <= t
    ensures Sum(Within(w, t), ledger) <= Sum(Within(w, now), ledger)
  {
    if ledger != [] {
      assert ledger[0] in ledger;
      WithinFades(ledger[1..], w, now, t);
    }
  }

  /** The last part of a window and what precedes it. */
  lemma {:induction false} WindowInTwo(ledger: seq<Request>, w: nat, rest: nat, t: nat)
    ensures Sum(Within(w + rest, t), ledger)
         == Sum(Within(w, t), ledger) + if t >= w then Sum(Within(rest, t - w), ledger) else 0
  {
    if ledger != [] {
      WindowInTwo(ledger[1..], w, rest, t);
    }
  }

  /** What is never passed in one window is passed at most `n` times over in `n`. */
  lemma {:induction false} WindowsInARow(ledger: seq<Request>, w: nat, most: nat, n: nat, t: nat)
    requires forall u: nat {:trigger Sum(Within(w, u), ledger)} :: u <= t ==> Sum(Within(w, u), ledger) <= most
    ensures Sum(Within(n * w, t), ledger) <= n * most
    decreases n
  {
    if n == 0 {
      NothingInNoTime(ledger, t);
    } else {
      assert n * w == w + (n - 1) * w && n * most == most + (n - 1) * most;
      WindowInTwo(ledger, w, (n - 1) * w, t);
      if t >= w {
        WindowsInARow(ledger, w, most, n - 1, t - w);
      }
    }
  }

  lemma {:induction false} NothingInNoTime(ledger: seq<Request>, t: nat)
    ensures Sum(Within(0, t), ledger) == 0
  {
    if ledger != [] {
      NothingInNoTime(ledger[1..], t);
    }
  }

  lemma {:induction false} OthersExpired(ledger: seq<Request>, w: nat, last: nat, t: nat)
    requires forall r :: r in ledger && r.Unseen? ==> r.at <= last
    requires last + w <= t
    ensures Sum(Others(w, t), ledger) == 0
  {
    if ledger != [] {
      assert ledger[0] in ledger;
      OthersExpired(ledger[1..], w, last, t);
    }
  }

  lemma {:induction false} NoOthers(ledger: seq<Request>, w: nat, t: nat)
    requires forall r :: r in ledger ==> !r.Unseen?
    ensures Sum(Others(w, t), ledger) == 0
  {
    if ledger != [] {
      assert ledger[0] in ledger;
      NoOthers(ledger[1..], w, t);
    }
  }
}
