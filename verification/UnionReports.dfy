/** Which reports of a finished pass still hold of the finished tree. */
module UnionReports {
  import opened Prelude
  import opened JsonTrees
  import opened Unions
  import opened UnionBranches
  import opened UnionSteps

  predicate IsFixed(j: Json, role: Role) {
    role.Branch? && Discriminant(j).Some?
  }

  /** The hop a token stands for in `j`. */
  function HopOf(j: Json, token: string): Hop {
    if j.Obj? || ParseIndex(token).None? then Key(token) else Index(ParseIndex(token).value)
  }

  /** The tokens neither end at a branch the rule fixes nor go through the
      `required` list it replaces. */
  predicate Spared(j: Json, role: Role, tokens: seq<string>)
    decreases |tokens|
  {
    if tokens == [] then !IsFixed(j, role)
    else
      && !(IsFixed(j, role) && tokens[0] == "required")
      && (Step(j, tokens[0]).Some? ==>
            Spared(Step(j, tokens[0]).value, Below(role, HopOf(j, tokens[0])), tokens[1..]))
  }

  lemma {:induction false} FixedStep(j: Json, role: Role, token: string)
    requires !(IsFixed(j, role) && token == "required")
    ensures Step(Fixed(j, role), token).Some? <==> Step(j, token).Some?
    ensures Step(j, token).Some? ==>
              Step(Fixed(j, role), token).value == Fixed(Step(j, token).value, Below(role, HopOf(j, token)))
  {
    FixedChild(j, role, HopOf(j, token));
    if j.Obj? {
      FixedFields(j.fields, role);
    }
  }

  /** A pointer names an under-constrained node of the finished tree exactly when
      it named one before and is spared. */
  lemma {:induction false} TargetExactly(j: Json, role: Role, tokens: seq<string>)
    ensures var before, after := Resolve(j, tokens), Resolve(Fixed(j, role), tokens);
            && ((after.Some? && Unconstrained(after.value).Some?) <==>
                  (before.Some? && Unconstrained(before.value).Some? && Spared(j, role, tokens)))
            && (after.Some? && Unconstrained(after.value).Some? ==>
                  Unconstrained(after.value) == Unconstrained(before.value))
    decreases |tokens|
  {
    if tokens == [] {
      FixedConstraint(j, role);
    } else if IsFixed(j, role) && tokens[0] == "required" {
      var name := Discriminant(j).value;
      FixedFields(j.fields, role);
      assert Step(Fixed(j, role), tokens[0]) == Some(Requiring(name));
      if Resolve(Requiring(name), tokens[1..]).Some? {
        ResolveRequired(name, tokens[1..]);
      }
    } else {
      FixedStep(j, role, tokens[0]);
      if Step(j, tokens[0]).Some? {
        TargetExactly(Step(j, tokens[0]).value, Below(role, HopOf(j, tokens[0])), tokens[1..]);
      }
    }
  }

  lemma {:induction false} StepOfHop(j: Json, hop: Hop)
    requires Child(j, hop).Some?
    ensures Step(j, Token(hop)) == Child(j, hop) && HopOf(j, Token(hop)) == hop
    ensures Token(hop) == "required" ==> hop == Key("required")
  {
    if hop.Index? {
      IndexParses(hop.i);
      NoIndexRequired(hop.i);
    }
  }

  lemma {:induction false} NoIndexRequired(i: nat)
    ensures Token(Index(i)) != "required"
  {
    LastTokens([Key("oneOf"), Index(i)], 1);
  }

  /** A branch the rule does not fix is still there exactly when it is spared. */
  lemma {:induction false} BranchExactly(j: Json, role: Role, path: Path)
    requires At(j, path).Some? && Roles(role, path).Branch? && Discriminant(At(j, path).value).None?
    ensures At(Fixed(j, role), path).Some? <==> Spared(j, role, Tokens(path))
    decreases |path|
  {
    if path != [] {
      StepOfHop(j, path[0]);
      assert Tokens(path)[1..] == Tokens(path[1..]);
      if IsFixed(j, role) && path[0] == Key("required") {
        FixedFields(j.fields, role);
        assert Child(Fixed(j, role), path[0]) == Some(Requiring(Discriminant(j).value));
        NoBranchInRequired(Discriminant(j).value, path[1..]);
      } else {
        FixedChild(j, role, path[0]);
        BranchExactly(Child(j, path[0]).value, Below(role, path[0]), path[1..]);
      }
    }
  }

  /** The tokens of a reference to somewhere in the same tree. */
  function TargetTokens(target: string): seq<string> {
    var tokens := if target == "" then None else ParsePointer(target[1..]);
    if tokens.None? then [] else tokens.value
  }

  /** What was reported of a branch holds of the finished tree if and only if the
      fixes spared the branch and, for a reference, its target. */
  lemma {:induction false} ReportStandsExactly(before: Json, path: Path, cause: Cause)
    requires IsBranch(before, path) && Discriminant(At(before, path).value).None?
    requires Obstacle(before, At(before, path).value) == Some(cause)
    ensures var after := Fixed(before, Plain);
            (IsBranch(after, path) && Obstacle(after, At(after, path).value) == Some(cause)) <==>
              && Spared(before, Plain, Tokens(path))
              && (cause.RefersTo? ==> Spared(before, Plain, TargetTokens(cause.target)))
  {
    var after, branch := Fixed(before, Plain), At(before, path).value;
    RolesAreBranches(before, path);
    BranchExactly(before, Plain, path);
    if At(after, path).Some? {
      FixedBranch(before, Plain, path);
      FixedConstraint(branch, Branch);
    }
    if cause.RefersTo? {
      TargetExactly(before, Plain, TargetTokens(cause.target));
    }
  }

  // ----- a report that no longer holds -----

  /** A reference to a branch that comes later is reported, and its target fixed after that. */
  lemma {:induction false} ReportOutlived(root: Json, p: Path, q: Path, name: string)
    requires At(root, p).Some? && RefOf(At(root, p).value) == Some("#" + Pointer(q))
    requires IsBranch(root, q) && Discriminant(At(root, q).value) == Some(name)
    ensures var (after, unresolved) := Pass(root, Pointers("", [p, q]));
            && unresolved == [Unresolved(Pointer(p), RefersTo("#" + Pointer(q)))]
            && TargetNames(root, "#" + Pointer(q)) == Some({name})
            && TargetNames(after, "#" + Pointer(q)).None?
  {
    var target, after := "#" + Pointer(q), Marked(root, q, name);
    assert target[1..] == Pointer(q);
    PointerRoundTrip(root, p);
    PointerRoundTrip(root, q);
    AttendIs(root, p);
    AttendIs(root, q);
    TwoPointers(root, p, q, root, Some(RefersTo(target)), after, None);
    FixedTarget(root, q, name);
  }

  lemma {:induction false} FixedTarget(root: Json, q: Path, name: string)
    requires IsBranch(root, q) && Discriminant(At(root, q).value) == Some(name)
    ensures TargetNames(Marked(root, q, name), "#" + Pointer(q)).None?
  {
    assert ("#" + Pointer(q))[1..] == Pointer(q);
    MarkedAt(root, q, name);
    PointerRoundTrip(Marked(root, q, name), q);
  }

  lemma {:induction false} PassCons(root: Json, first: string, rest: seq<string>, next: Json, cause: Option<Cause>)
    requires Attend(root, first) == (next, cause)
    ensures Pass(root, [first] + rest) == (Pass(next, rest).0, Reports(first, cause) + Pass(next, rest).1)
  {
    assert ([first] + rest)[1..] == rest;
  }

  lemma {:induction false} PointersOfTwo(p: Path, q: Path)
    ensures Pointers("", [p, q]) == [Pointer(p)] + ([Pointer(q)] + [])
  {
    assert "" + Pointer(p) == Pointer(p) && "" + Pointer(q) == Pointer(q);
  }

  lemma {:induction false} TwoPointers(root: Json, p: Path, q: Path, next: Json, first: Option<Cause>, end: Json,
                                       second: Option<Cause>)
    requires Attend(root, Pointer(p)) == (next, first) && Attend(next, Pointer(q)) == (end, second)
    ensures Pass(root, Pointers("", [p, q])) == (end, Reports(Pointer(p), first) + Reports(Pointer(q), second))
  {
    PointersOfTwo(p, q);
    PassCons(next, Pointer(q), [], end, second);
    PassCons(root, Pointer(p), [Pointer(q)] + [], next, first);
    assert Reports(Pointer(q), second) + [] == Reports(Pointer(q), second);
  }

  function UnionOf(branch: Json): Json {
    Obj(map["oneOf" := Arr([branch])])
  }

  const FIRST: Path := [Key("a"), Key("oneOf"), Index(0)]
  const SECOND: Path := [Key("b"), Key("oneOf"), Index(0)]

  lemma {:induction false} LoneMember(key: string, child: Json, inner: seq<Path>)
    requires Lists(inner, child)
    ensures Lists(Prefixed(Key(key), Listed(Key(key), child) + inner), Obj(map[key := child]))
  {
    var j := Obj(map[key := child]);
    ListsOneMore([], j, {}, Key(key), inner);
    var found := Prefixed(Key(key), Listed(Key(key), child) + inner);
    assert [] + found == found;
    AllSeen(found, j, {} + {Key(key)});
  }

  lemma {:induction false} LoneItem(child: Json)
    requires Lists([], child)
    ensures Lists([], Arr([child]))
  {
    ListsOneMore([], Arr([child]), {}, Index(0), []);
    AllSeen([], Arr([child]), {} + {Index(0)});
  }

  lemma {:induction false} PrefixedOne(hop: Hop, path: Path)
    ensures Prefixed(hop, [path]) == [[hop] + path]
  {
    assert Prefixed(hop, [path])[0] == [hop] + path;
  }

  lemma {:induction false} OneBranch(branch: Json)
    requires Lists([], branch)
    ensures Lists([[Key("oneOf"), Index(0)]], UnionOf(branch))
  {
    LoneItem(branch);
    LoneMember("oneOf", Arr([branch]), []);
    var listed := Listed(Key("oneOf"), Arr([branch]));
    assert listed[0] == [Index(0)];
    assert listed + [] == [[Index(0)]];
    PrefixedOne(Key("oneOf"), [Index(0)]);
    assert [Key("oneOf")] + [Index(0)] == [Key("oneOf"), Index(0)];
  }

  lemma {:induction false} TwoUnions(x: Json, y: Json)
    requires Lists([], x) && Lists([], y)
    ensures var root := Obj(map["a" := UnionOf(x), "b" := UnionOf(y)]);
            Lists([FIRST, SECOND], root) && At(root, FIRST) == Some(x) && At(root, SECOND) == Some(y)
  {
    var root := Obj(map["a" := UnionOf(x), "b" := UnionOf(y)]);
    var inner: seq<Path> := [[Key("oneOf"), Index(0)]];
    OneBranch(x);
    OneBranch(y);
    ListsOneMore([], root, {}, Key("a"), inner);
    assert [] + inner == inner;
    PrefixedOne(Key("a"), inner[0]);
    PrefixedOne(Key("b"), inner[0]);
    assert [Key("a")] + inner[0] == FIRST && [Key("b")] + inner[0] == SECOND;
    assert [] + Prefixed(Key("a"), [] + inner) == [FIRST];
    ListsOneMore([FIRST], root, {} + {Key("a")}, Key("b"), inner);
    assert [FIRST] + Prefixed(Key("b"), [] + inner) == [FIRST, SECOND];
    AllSeen([FIRST, SECOND], root, {} + {Key("a")} + {Key("b")});
    UnionAt(root, "a", x);
    UnionAt(root, "b", y);
  }

  lemma {:induction false} UnionAt(root: Json, key: string, branch: Json)
    requires Member(root, key) == Some(UnionOf(branch))
    ensures At(root, [Key(key), Key("oneOf"), Index(0)]) == Some(branch)
  {
    assert [Key(key), Key("oneOf"), Index(0)][1..] == [Key("oneOf"), Index(0)];
    assert [Key("oneOf"), Index(0)][1..] == [Index(0)];
    assert [Index(0)][1..] == [];
    assert At(Arr([branch]), [Index(0)]) == Some(branch);
    assert At(UnionOf(branch), [Key("oneOf"), Index(0)]) == Some(branch);
  }

  function Reference(target: string): Json {
    Obj(map["$ref" := Str(target)])
  }

  const LONE := Obj(map["properties" := Obj(map["x" := Null])])

  lemma {:induction false} ReferenceNode(target: string)
    ensures Lists([], Reference(target)) && RefOf(Reference(target)) == Some(target)
  {
    NoBranchInLeaf(Str(target));
    LoneMember("$ref", Str(target), []);
  }

  lemma {:induction false} LoneNode()
    ensures Lists([], LONE) && Discriminant(LONE) == Some("x")
  {
    var properties := Obj(map["x" := Null]);
    NoBranchInLeaf(Null);
    LoneMember("x", Null, []);
    LoneMember("properties", properties, []);
    assert properties.fields.Keys == {"x"};
    assert LONE.fields == map["properties" := properties];
    assert Unconstrained(LONE) == Some({"x"});
  }

  /** Such a tree: the branch of union "a" refers to that of union "b". */
  lemma {:induction false} OutlivedReportExists() returns (root: Json)
    ensures Lists([FIRST, SECOND], root)
    ensures var (after, unresolved) := Pass(root, Pointers("", [FIRST, SECOND]));
            && unresolved == [Unresolved(Pointer(FIRST), RefersTo("#" + Pointer(SECOND)))]
            && TargetNames(root, "#" + Pointer(SECOND)).Some?
            && TargetNames(after, "#" + Pointer(SECOND)).None?
  {
    var target := "#" + Pointer(SECOND);
    root := Obj(map["a" := UnionOf(Reference(target)), "b" := UnionOf(LONE)]);
    ReferenceNode(target);
    LoneNode();
    TwoUnions(Reference(target), LONE);
    ReportOutlived(root, FIRST, SECOND, "x");
  }
}
