/** Fixing union branches one pointer at a time, with a list of those that could not be fixed. */
module UnionSteps {
  import opened Prelude
  import opened Text
  import opened JsonTrees
  import opened Unions
  import opened UnionBranches

  datatype Cause = RefersTo(target: string) | HasProperties(names: set<string>)

  datatype Unresolved = Unresolved(pointer: string, cause: Cause)

  /** The node a local reference leads to, one step. */
  function Target(root: Json, target: string): Option<Json> {
    if target != "" && target[0] == '#' then Eval(root, target[1..]) else None
  }

  /** The properties of an under-constrained object a reference leads to. */
  function TargetNames(root: Json, target: string): Option<set<string>> {
    var node := Target(root, target);
    if node.Some? then Unconstrained(node.value) else None
  }

  /** What keeps `branch` from being told apart, if the rule does not fix it. */
  function Obstacle(root: Json, branch: Json): Option<Cause> {
    var target, names := RefOf(branch), Unconstrained(branch);
    if target.Some? then
      if TargetNames(root, target.value).Some? then Some(RefersTo(target.value)) else None
    else if names.Some? then Some(HasProperties(names.value))
    else None
  }

  /** The branch at `path` needs no attention, or `unresolved` names it and says why. */
  predicate Accounted(root: Json, path: Path, unresolved: seq<Unresolved>)
    requires At(root, path).Some?
  {
    var obstacle := Obstacle(root, At(root, path).value);
    obstacle.Some? ==> Unresolved(Pointer(path), obstacle.value) in unresolved
  }

  /** A report that was true of the tree `root`, and that the rule could do nothing about. */
  ghost predicate Founded(root: Json, report: Unresolved) {
    exists path ::
      && IsBranch(root, path) && report.pointer == Pointer(path)
      && Obstacle(root, At(root, path).value) == Some(report.cause)
      && Discriminant(At(root, path).value).None?
  }

  // ----- one fix and the rest of the tree -----

  /** Every branch of `b` was one of `a`, and nothing in `b` is less constrained than in `a`. */
  ghost predicate Progress(a: Json, b: Json) {
    && (forall path :: IsBranch(b, path) ==> IsBranch(a, path) && NoWorse(At(a, path).value, At(b, path).value))
    && (forall tokens :: Resolve(b, tokens).Some? && Unconstrained(Resolve(b, tokens).value).Some? ==>
          && Resolve(a, tokens).Some?
          && Unconstrained(Resolve(a, tokens).value) == Unconstrained(Resolve(b, tokens).value))
  }

  lemma {:induction false} RestOfPrefix(path: Path, hop: Hop, q: Path)
    requires path != [] && q != [] && q[0] == path[0]
    ensures path[1..] + [hop] <= q[1..] ==> path + [hop] <= q
  {
    assert path + [hop] == [path[0]] + (path[1..] + [hop]);
  }

  lemma {:induction false} ElsewhereHere(j: Json, name: string, q: Path)
    requires Fixable(j, [], name) && q != [] && q[0] != Key("required")
    ensures At(Marked(j, [], name), q) == At(j, q)
  {
    MarkedHere(j, name);
    assert Child(Marked(j, [], name), q[0]) == Child(j, q[0]);
  }

  /** Outside the new list every node is still there, and no worse. */
  lemma {:induction false} Elsewhere(j: Json, path: Path, name: string, q: Path)
    requires Fixable(j, path, name) && !(path + [Key("required")] <= q)
    ensures At(Marked(j, path, name), q).Some? <==> At(j, q).Some?
    ensures At(j, q).Some? ==> NoWorse(At(j, q).value, At(Marked(j, path, name), q).value)
    decreases |path|
  {
    if q == [] {
      if path == [] {
        MarkedHere(j, name);
      } else {
        MarkedAbove(j, path, name);
      }
    } else if path == [] {
      assert path + [Key("required")] == [Key("required")];
      ElsewhereHere(j, name, q);
    } else {
      MarkedChild(j, path, name);
      if q[0] == path[0] {
        RestOfPrefix(path, Key("required"), q);
        Elsewhere(Child(j, path[0]).value, path[1..], name, q[1..]);
      }
    }
  }

  /** A pointer names what it named before, or goes into the new `required` list. */
  lemma {:induction false} MarkedResolves(j: Json, path: Path, name: string, tokens: seq<string>)
    requires Fixable(j, path, name) && Resolve(Marked(j, path, name), tokens).Some?
    ensures var after := Resolve(Marked(j, path, name), tokens).value;
            if Tokens(path) + ["required"] <= tokens then
              |tokens| <= |path| + 2 && Unconstrained(after).None?
            else
              Resolve(j, tokens).Some? && NoWorse(Resolve(j, tokens).value, after)
    decreases |path|
  {
    if path == [] {
      MarkedHere(j, name);
      if tokens != [] {
        if tokens[0] == "required" {
          assert Tokens(path) + ["required"] <= tokens;
          ResolveRequired(name, tokens[1..]);
        } else {
          assert Step(Marked(j, path, name), tokens[0]) == Step(j, tokens[0]);
        }
      }
    } else if tokens == [] {
      MarkedAbove(j, path, name);
    } else {
      assert Tokens(path) + ["required"] == [Token(path[0])] + (Tokens(path[1..]) + ["required"]);
      assert tokens == [tokens[0]] + tokens[1..];
      if tokens[0] == Token(path[0]) {
        SameHop(j, path, name);
        MarkedResolves(Child(j, path[0]).value, path[1..], name, tokens[1..]);
      } else {
        SameStep(j, path, name, tokens[0]);
      }
    }
  }

  lemma {:induction false} SameHop(j: Json, path: Path, name: string)
    requires path != [] && At(j, path).Some?
    ensures Step(j, Token(path[0])) == Child(j, path[0])
    ensures Step(Marked(j, path, name), Token(path[0])) == Some(Marked(Child(j, path[0]).value, path[1..], name))
  {
    MarkedBelow(j, path, name);
    if path[0].Index? {
      IndexParses(path[0].i);
    }
  }

  lemma {:induction false} SameStep(j: Json, path: Path, name: string, token: string)
    requires path != [] && At(j, path).Some? && token != Token(path[0])
    ensures Step(Marked(j, path, name), token) == Step(j, token)
  {
    MarkedBelow(j, path, name);
    if path[0].Index? && ParseIndex(token) == Some(path[0].i) {
      IndexPrints(token);
    }
  }

  lemma {:induction false} ResolveRequired(name: string, tokens: seq<string>)
    requires Resolve(Requiring(name), tokens).Some?
    ensures |tokens| <= 1 && Unconstrained(Resolve(Requiring(name), tokens).value).None?
  {
    if tokens != [] {
      assert Step(Requiring(name), tokens[0]) == Some(Str(name));
    }
  }

  lemma {:induction false} TokenAfter(path: Path, last: string, tokens: seq<string>)
    requires Tokens(path) + [last] <= tokens
    ensures |path| < |tokens| && tokens[|path|] == last
  {
    TokensLength(path);
    assert tokens[|path|] == (Tokens(path) + [last])[|path|];
  }

  lemma {:induction false} LastTokens(q: Path, n: nat)
    requires EndsInUnion(q) && |q| - 2 <= n < |q|
    ensures Token(q[n]) != "required"
  {
    if q[n].Index? {
      assert IsDigit(Print(q[n].i)[0]) && !IsDigit("required"[0]);
    } else {
      assert IsUnionKey(q[n].name) && |"oneOf"| == |"anyOf"| == 5 && |"required"| == 8;
    }
  }

  /** No branch lies in a new `required` list. */
  lemma {:induction false} BranchTokens(q: Path, path: Path)
    requires EndsInUnion(q)
    requires Tokens(path) + ["required"] <= Tokens(q)
    ensures |q| > |path| + 2
  {
    TokenAfter(path, "required", Tokens(q));
    TokensLength(q);
    if |q| <= |path| + 2 {
      TokenAt(q, |path|);
      LastTokens(q, |path|);
    }
  }

  lemma {:induction false} TokensLength(path: Path)
    ensures |Tokens(path)| == |path|
  {
    if path != [] {
      TokensLength(path[1..]);
    }
  }

  lemma {:induction false} TokenAt(path: Path, i: nat)
    requires i < |path|
    ensures |Tokens(path)| == |path| && Tokens(path)[i] == Token(path[i])
  {
    TokensLength(path);
    if i > 0 {
      TokenAt(path[1..], i - 1);
    }
  }

  /** Fixing one branch makes no other node less constrained, and no new branches. */
  lemma {:induction false} MarkedIsProgress(j: Json, path: Path, name: string)
    requires IsBranch(j, path) && Discriminant(At(j, path).value) == Some(name)
    ensures Progress(j, Marked(j, path, name))
  {
    var k := Marked(j, path, name);
    forall q | IsBranch(k, q) ensures IsBranch(j, q) && NoWorse(At(j, q).value, At(k, q).value) {
      TokensResolve(k, q);
      OutsideRequired(j, path, name, q);
      Elsewhere(j, path, name, q);
    }
    forall tokens | Resolve(k, tokens).Some? && Unconstrained(Resolve(k, tokens).value).Some?
      ensures Resolve(j, tokens).Some?
      ensures Unconstrained(Resolve(j, tokens).value) == Unconstrained(Resolve(k, tokens).value)
    {
      MarkedResolves(j, path, name, tokens);
    }
  }

  lemma {:induction false} OutsideRequired(j: Json, path: Path, name: string, q: Path)
    requires Fixable(j, path, name) && EndsInUnion(q) && Resolve(Marked(j, path, name), Tokens(q)).Some?
    ensures !(path + [Key("required")] <= q) && Resolve(j, Tokens(q)).Some?
  {
    MarkedResolves(j, path, name, Tokens(q));
    TokensLength(q);
    if Tokens(path) + ["required"] <= Tokens(q) {
      BranchTokens(q, path);
    }
    if path + [Key("required")] <= q {
      TokensPrefix(path, Key("required"), q);
    }
  }

  lemma {:induction false} TokensPrefix(path: Path, hop: Hop, q: Path)
    requires path + [hop] <= q
    ensures Tokens(path) + [Token(hop)] <= Tokens(q)
    decreases |path|
  {
    assert q[0] == (path + [hop])[0];
    if path != [] {
      assert (path + [hop])[1..] == path[1..] + [hop];
      assert path[1..] + [hop] <= q[1..];
      TokensPrefix(path[1..], hop, q[1..]);
    }
  }

  /** The pointer of a branch leads to that branch or nowhere. */
  predicate Leads(j: Json, path: Path) {
    At(j, path).Some? || Resolve(j, Tokens(path)).None?
  }

  lemma {:induction false} StillLeads(j: Json, path: Path, name: string, q: Path)
    requires Fixable(j, path, name) && EndsInUnion(q) && Leads(j, q)
    ensures Leads(Marked(j, path, name), q)
  {
    if Resolve(Marked(j, path, name), Tokens(q)).Some? {
      OutsideRequired(j, path, name, q);
      Elsewhere(j, path, name, q);
    }
  }

  lemma {:induction false} ProgressComposes(a: Json, b: Json, c: Json)
    requires Progress(a, b) && Progress(b, c)
    ensures Progress(a, c)
  {
    forall path | IsBranch(c, path) ensures IsBranch(a, path) && NoWorse(At(a, path).value, At(c, path).value) {
      assert IsBranch(b, path);
    }
    forall tokens | Resolve(c, tokens).Some? && Unconstrained(Resolve(c, tokens).value).Some?
      ensures Resolve(a, tokens).Some?
      ensures Unconstrained(Resolve(a, tokens).value) == Unconstrained(Resolve(c, tokens).value)
    {
      assert Resolve(b, tokens).Some?;
    }
  }

  /** An obstacle seen late was there from the start. */
  lemma {:induction false} ObstacleWasThere(a: Json, b: Json, path: Path)
    requires Progress(a, b) && IsBranch(b, path) && Obstacle(b, At(b, path).value).Some?
    ensures IsBranch(a, path) && Obstacle(a, At(a, path).value) == Obstacle(b, At(b, path).value)
    ensures Discriminant(At(b, path).value).None? ==> Discriminant(At(a, path).value).None?
  {
    var x, y := At(a, path).value, At(b, path).value;
    assert NoWorse(x, y);
    if RefOf(y).Some? {
      var target := RefOf(y).value;
      assert Target(b, target).Some?;
      assert Resolve(b, ParsePointer(target[1..]).value).Some?;
    }
  }

  // ----- the whole pass -----

  /** One collected pointer: the tree afterwards, and what to report. */
  function Attend(root: Json, pointer: string): (Json, Option<Cause>) {
    var branch := Eval(root, pointer);
    if branch.None? then (root, None) else
    var target, names := RefOf(branch.value), Unconstrained(branch.value);
    if target.Some? then
      (root, if TargetNames(root, target.value).Some? then Some(RefersTo(target.value)) else None)
    else if names.None? then (root, None)
    else
      var only := Discriminant(branch.value);
      if only.Some? then (Mark(root, ParsePointer(pointer).value, only.value), None)
      else (root, Some(HasProperties(names.value)))
  }

  function Reports(pointer: string, cause: Option<Cause>): seq<Unresolved> {
    if cause.Some? then [Unresolved(pointer, cause.value)] else []
  }

  /** All collected pointers, in the order they were collected. */
  function Pass(root: Json, pointers: seq<string>): (Json, seq<Unresolved>)
    decreases |pointers|
  {
    if pointers == [] then (root, []) else
    var (next, cause) := Attend(root, pointers[0]);
    var (end, rest) := Pass(next, pointers[1..]);
    (end, Reports(pointers[0], cause) + rest)
  }

  /** The first `n` branches that are still there are fixed, reported or fine. */
  ghost predicate Attended(root: Json, paths: seq<Path>, n: nat, unresolved: seq<Unresolved>)
    requires n <= |paths|
  {
    forall k :: 0 <= k < n && At(root, paths[k]).Some? ==>
      Accounted(root, paths[k], unresolved) && Discriminant(At(root, paths[k]).value).None?
  }

  /** The tree on its way from `before`, whose branches are `paths`, to its finished form. */
  ghost predicate OnTheWay(before: Json, root: Json, paths: seq<Path>) {
    && Lists(paths, before)
    && Fixed(root, Plain) == Fixed(before, Plain)
    && Progress(before, root)
    && forall k :: 0 <= k < |paths| ==> Leads(root, paths[k])
  }

  ghost predicate AllFounded(before: Json, unresolved: seq<Unresolved>) {
    forall report <- unresolved :: Founded(before, report)
  }

  ghost predicate Underway(before: Json, root: Json, paths: seq<Path>, n: nat, unresolved: seq<Unresolved>) {
    && n <= |paths|
    && OnTheWay(before, root, paths) && Attended(root, paths, n, unresolved) && AllFounded(before, unresolved)
  }

  lemma {:induction false} PassStarts(root: Json, paths: seq<Path>)
    requires Lists(paths, root)
    ensures Underway(root, root, paths, 0, [])
  {
    forall k | 0 <= k < |paths| ensures Leads(root, paths[k]) {
      assert paths[k] in paths;
    }
  }

  /** What a collected pointer leads to now. */
  lemma {:induction false} PointerNow(before: Json, root: Json, paths: seq<Path>, n: nat, unresolved: seq<Unresolved>)
    requires Underway(before, root, paths, n, unresolved) && n < |paths|
    ensures Eval(root, Pointer(paths[n])) == At(root, paths[n]) && EndsInUnion(paths[n])
  {
    assert paths[n] in paths;
    PointerParses(paths[n]);
    if At(root, paths[n]).Some? {
      TokensResolve(root, paths[n]);
    }
  }

  /** The branch is gone or needs nothing. */
  lemma {:induction false} PassSkips(before: Json, root: Json, paths: seq<Path>, n: nat, unresolved: seq<Unresolved>)
    requires Underway(before, root, paths, n, unresolved) && n < |paths|
    requires At(root, paths[n]).Some? ==> Obstacle(root, At(root, paths[n]).value).None?
    ensures Underway(before, root, paths, n + 1, unresolved)
  {
    AttendedOneMore(root, paths, n, unresolved, unresolved);
  }

  lemma {:induction false} AttendedOneMore(root: Json, paths: seq<Path>, n: nat, unresolved: seq<Unresolved>,
                                           more: seq<Unresolved>)
    requires n < |paths| && Attended(root, paths, n, unresolved) && unresolved <= more
    requires At(root, paths[n]).Some? ==>
      Accounted(root, paths[n], more) && Discriminant(At(root, paths[n]).value).None?
    ensures Attended(root, paths, n + 1, more)
  {
    forall k | 0 <= k < n + 1 && At(root, paths[k]).Some?
      ensures Accounted(root, paths[k], more) && Discriminant(At(root, paths[k]).value).None?
    {
      if k < n {
        AccountedStill(root, paths[k], unresolved, more);
      }
    }
  }

  lemma {:induction false} AccountedStill(root: Json, path: Path, unresolved: seq<Unresolved>, more: seq<Unresolved>)
    requires At(root, path).Some? && Accounted(root, path, unresolved) && unresolved <= more
    ensures Accounted(root, path, more)
  {
  }

  /** The branch is reported. */
  lemma {:induction false} PassReports(before: Json, root: Json, paths: seq<Path>, n: nat,
                                       unresolved: seq<Unresolved>, cause: Cause)
    requires Underway(before, root, paths, n, unresolved) && n < |paths| && At(root, paths[n]).Some?
    requires Obstacle(root, At(root, paths[n]).value) == Some(cause) && Discriminant(At(root, paths[n]).value).None?
    ensures Underway(before, root, paths, n + 1, unresolved + [Unresolved(Pointer(paths[n]), cause)])
  {
    var path, report := paths[n], Unresolved(Pointer(paths[n]), cause);
    assert path in paths && EndsInUnion(path);
    ObstacleWasThere(before, root, path);
    assert Founded(before, report);
    AttendedOneMore(root, paths, n, unresolved, unresolved + [report]);
  }

  /** The branch is fixed. */
  lemma {:induction false} PassFixes(before: Json, root: Json, paths: seq<Path>, n: nat, unresolved: seq<Unresolved>,
                                     name: string)
    requires Underway(before, root, paths, n, unresolved) && n < |paths| && At(root, paths[n]).Some?
    requires Discriminant(At(root, paths[n]).value) == Some(name)
    ensures Underway(before, Marked(root, paths[n], name), paths, n + 1, unresolved)
  {
    var path, after := paths[n], Marked(root, paths[n], name);
    assert path in paths && EndsInUnion(path);
    MarkedIsProgress(root, path, name);
    MarkedOnTheWay(before, root, paths, path, name);
    forall k | 0 <= k < n + 1 && At(after, paths[k]).Some?
      ensures Accounted(after, paths[k], unresolved) && Discriminant(At(after, paths[k]).value).None?
    {
      assert paths[k] in paths && IsBranch(after, paths[k]);
      if k == n {
        MarkedAt(root, path, name);
      } else {
        StaysAccounted(root, after, paths[k], unresolved);
      }
    }
  }

  lemma {:induction false} MarkedOnTheWay(before: Json, root: Json, paths: seq<Path>, path: Path, name: string)
    requires OnTheWay(before, root, paths) && IsBranch(root, path) && Discriminant(At(root, path).value) == Some(name)
    ensures OnTheWay(before, Marked(root, path, name), paths)
  {
    var after := Marked(root, path, name);
    RolesAreBranches(root, path);
    MarkedThenFixed(root, Plain, path, name);
    MarkedIsProgress(root, path, name);
    ProgressComposes(before, root, after);
    forall k | 0 <= k < |paths| ensures Leads(after, paths[k]) {
      assert paths[k] in paths;
      StillLeads(root, path, name, paths[k]);
    }
  }

  lemma {:induction false} StaysAccounted(a: Json, b: Json, path: Path, unresolved: seq<Unresolved>)
    requires Progress(a, b) && IsBranch(b, path) && At(a, path).Some?
    requires Accounted(a, path, unresolved) && Discriminant(At(a, path).value).None?
    ensures Accounted(b, path, unresolved) && Discriminant(At(b, path).value).None?
  {
    assert NoWorse(At(a, path).value, At(b, path).value);
    if Obstacle(b, At(b, path).value).Some? {
      ObstacleWasThere(a, b, path);
    }
  }

  lemma {:induction false} MarkedAt(j: Json, path: Path, name: string)
    requires Fixable(j, path, name)
    ensures At(Marked(j, path, name), path).Some?
    ensures var after := At(Marked(j, path, name), path).value; RefOf(after).None? && Unconstrained(after).None?
    decreases |path|
  {
    if path == [] {
      MarkedHere(j, name);
    } else {
      MarkedChild(j, path, name);
      MarkedAt(Child(j, path[0]).value, path[1..], name);
    }
  }

  /** What attending to a branch comes to. */
  lemma {:induction false} AttendIs(root: Json, path: Path)
    requires Eval(root, Pointer(path)) == At(root, path)
    ensures Attend(root, Pointer(path)) ==
              if At(root, path).None? then (root, None)
              else if Discriminant(At(root, path).value).Some? then
                (Marked(root, path, Discriminant(At(root, path).value).value), None)
              else (root, Obstacle(root, At(root, path).value))
  {
    PointerParses(path);
  }

  lemma {:induction false} AttendKeeps(before: Json, root: Json, paths: seq<Path>, n: nat,
                                       unresolved: seq<Unresolved>)
    requires Underway(before, root, paths, n, unresolved) && n < |paths|
    ensures var (next, cause) := Attend(root, Pointer(paths[n]));
            Underway(before, next, paths, n + 1, unresolved + Reports(Pointer(paths[n]), cause))
  {
    PointerNow(before, root, paths, n, unresolved);
    AttendIs(root, paths[n]);
    assert unresolved + [] == unresolved;
    var branch := At(root, paths[n]);
    if branch.None? || (Discriminant(branch.value).None? && Obstacle(root, branch.value).None?) {
      PassSkips(before, root, paths, n, unresolved);
    } else if Discriminant(branch.value).Some? {
      PassFixes(before, root, paths, n, unresolved, Discriminant(branch.value).value);
    } else {
      PassReports(before, root, paths, n, unresolved, Obstacle(root, branch.value).value);
    }
  }

  lemma {:induction false} FirstPointer(paths: seq<Path>, n: nat)
    requires n < |paths|
    ensures Pointers("", paths[n..]) == [Pointer(paths[n])] + Pointers("", paths[n + 1..])
  {
    var now, rest := Pointers("", paths[n..]), Pointers("", paths[n + 1..]);
    assert |now| == 1 + |rest|;
    assert now[0] == "" + Pointer(paths[n]) == Pointer(paths[n]);
    forall i | 0 <= i < |rest| ensures now[i + 1] == rest[i] {
      assert paths[n..][i + 1] == paths[n + 1..][i];
    }
  }

  lemma {:induction false} PassFirst(root: Json, first: string, pointers: seq<string>, unresolved: seq<Unresolved>)
    ensures var (next, cause) := Attend(root, first);
            var (end, rest) := Pass(root, [first] + pointers);
            && end == Pass(next, pointers).0
            && unresolved + rest == unresolved + Reports(first, cause) + Pass(next, pointers).1
  {
    assert ([first] + pointers)[1..] == pointers;
  }

  lemma {:induction false} PassKeeps(before: Json, root: Json, paths: seq<Path>, n: nat, unresolved: seq<Unresolved>)
    requires Underway(before, root, paths, n, unresolved)
    ensures var (end, rest) := Pass(root, Pointers("", paths[n..]));
            Underway(before, end, paths, |paths|, unresolved + rest)
    decreases |paths| - n
  {
    if n == |paths| {
      assert unresolved + [] == unresolved;
    } else {
      AttendKeeps(before, root, paths, n, unresolved);
      var (next, cause) := Attend(root, Pointer(paths[n]));
      PassKeeps(before, next, paths, n + 1, unresolved + Reports(Pointer(paths[n]), cause));
      FirstPointer(paths, n);
      PassFirst(root, Pointer(paths[n]), Pointers("", paths[n + 1..]), unresolved);
    }
  }

  /** One more pointer, as a loop takes it. */
  lemma {:induction false} PassOneMore(root: Json, pointers: seq<string>, n: nat, unresolved: seq<Unresolved>)
    requires n < |pointers|
    ensures var (next, cause) := Attend(root, pointers[n]);
            && Pass(root, pointers[n..]).0 == Pass(next, pointers[n + 1..]).0
            && unresolved + Pass(root, pointers[n..]).1
            == unresolved + Reports(pointers[n], cause) + Pass(next, pointers[n + 1..]).1
  {
    assert pointers[n..] == [pointers[n]] + pointers[n + 1..];
    PassFirst(root, pointers[n], pointers[n + 1..], unresolved);
  }

  /** Whatever order the branches come in: the tree is finished, every branch, or
      its reference's target, is constrained or named, and nothing is named
      without ground. */
  lemma {:induction false} PassIsRight(before: Json, paths: seq<Path>)
    requires Lists(paths, before)
    ensures var (root, unresolved) := Pass(before, Pointers("", paths));
            && root == Fixed(before, Plain)
            && (forall path :: IsBranch(root, path) ==> Accounted(root, path, unresolved))
            && (forall report <- unresolved :: Founded(before, report))
  {
    PassStarts(before, paths);
    PassKeeps(before, before, paths, 0, []);
    assert paths[0..] == paths;
    var (root, unresolved) := Pass(before, Pointers("", paths));
    assert [] + unresolved == unresolved;
    PassEnds(before, root, paths, unresolved);
  }

  /** Nothing is left to do, and every branch is accounted for. */
  lemma {:induction false} PassEnds(before: Json, root: Json, paths: seq<Path>, unresolved: seq<Unresolved>)
    requires Underway(before, root, paths, |paths|, unresolved)
    ensures root == Fixed(before, Plain)
    ensures forall path :: IsBranch(root, path) ==> Accounted(root, path, unresolved)
    ensures forall report <- unresolved :: Founded(before, report)
  {
    forall path | IsBranch(root, path)
      ensures Accounted(root, path, unresolved) && Discriminant(At(root, path).value).None?
    {
      assert path in paths;
      var k :| 0 <= k < |paths| && paths[k] == path;
    }
    forall path | At(root, path).Some? && Roles(Plain, path).Branch? ensures Discriminant(At(root, path).value).None? {
      RolesAreBranches(root, path);
    }
    NothingToFix(root, Plain);
  }
}
