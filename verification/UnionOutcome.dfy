/** What the union rule comes to, in the terms of the description itself: the
    members `type`, `properties`, `required` and `$ref` of whatever `oneOf` and
    `anyOf` list. */
module UnionOutcome {
  import opened Prelude
  import opened JsonTrees
  import opened Unions
  import opened UnionBranches
  import opened UnionSteps
  import opened UnionReports

  /** An object with properties and nothing it requires: it takes every object. */
  predicate Ambiguous(node: Json) {
    && node.Obj? && "properties" in node.fields
    && node.fields["properties"].Obj? && node.fields["properties"].fields != map[]
    && ("type" in node.fields ==> node.fields["type"] == Str("object"))
    && ("required" in node.fields && node.fields["required"].Arr? ==> node.fields["required"].items == [])
  }

  function PropertyNames(node: Json): set<string>
    requires Ambiguous(node)
  {
    node.fields["properties"].fields.Keys
  }

  predicate IsReference(node: Json) {
    node.Obj? && "$ref" in node.fields && node.fields["$ref"].Str?
  }

  /** Ambiguous, with one property alone, which can tell it apart. */
  predicate HasLone(node: Json, name: string) {
    Ambiguous(node) && !IsReference(node) && PropertyNames(node) == {name}
  }

  /** The node refers to an ambiguous one of the same description. */
  predicate RefersToAmbiguous(root: Json, node: Json, target: string) {
    && node.Obj? && "$ref" in node.fields && node.fields["$ref"] == Str(target)
    && target != "" && target[0] == '#'
    && Eval(root, target[1..]).Some? && Ambiguous(Eval(root, target[1..]).value)
  }

  /** There is an item `i` in the list under the key at `path`. */
  predicate IsAlternative(root: Json, path: Path, key: string, i: nat) {
    && (key == "oneOf" || key == "anyOf")
    && At(root, path + [Key(key)]).Some? && At(root, path + [Key(key)]).value.Arr?
    && i < |At(root, path + [Key(key)]).value.items|
  }

  function Alternative(root: Json, path: Path, key: string, i: nat): Json
    requires IsAlternative(root, path, key, i)
  {
    At(root, path + [Key(key)]).value.items[i]
  }

  function Place(path: Path, key: string, i: nat): Path {
    path + [Key(key), Index(i)]
  }

  /** The alternative is not ambiguous and refers to nothing ambiguous, or it is
      reported with the reason, and then the rule could not have fixed it. */
  ghost predicate ToldApartOrReported(root: Json, path: Path, key: string, i: nat, unresolved: seq<Unresolved>)
    requires IsAlternative(root, path, key, i)
  {
    var node, pointer := Alternative(root, path, key, i), Pointer(Place(path, key, i));
    && (Ambiguous(node) && !IsReference(node) ==>
          && Unresolved(pointer, HasProperties(PropertyNames(node))) in unresolved
          && forall name :: PropertyNames(node) != {name})
    && (forall target :: RefersToAmbiguous(root, node, target) ==>
          Unresolved(pointer, RefersTo(target)) in unresolved)
  }

  /** The report is of an alternative of `before` that was ambiguous in more than one
      property, or referred to something ambiguous. */
  ghost predicate Grounded(before: Json, report: Unresolved) {
    exists path, key, i ::
      && IsAlternative(before, path, key, i) && report.pointer == Pointer(Place(path, key, i))
      && var node := Alternative(before, path, key, i);
         match report.cause
         case HasProperties(names) =>
           Ambiguous(node) && !IsReference(node) && names == PropertyNames(node) && forall name :: names != {name}
         case RefersTo(target) => RefersToAmbiguous(before, node, target)
  }

  /** The node at `q` is an ambiguous alternative with `name` for its only property. */
  ghost predicate Lone(before: Json, q: Path, name: string) {
    exists path, key, i ::
      && IsAlternative(before, path, key, i) && q == Place(path, key, i)
      && HasLone(Alternative(before, path, key, i), name)
  }

  /** The path goes through the `required` member of such an alternative. */
  ghost predicate Replaced(before: Json, q: Path) {
    exists p, name {:trigger Lone(before, p, name)} :: Lone(before, p, name) && p + [Key("required")] <= q
  }

  /** The same kind of node, with the same members or as many items, but for a new `required`. */
  predicate SameBut(a: Json, b: Json, more: set<string>) {
    match a
    case Obj(fields) => b.Obj? && b.fields.Keys == fields.Keys + more
    case Arr(items) => b.Arr? && |b.items| == |items|
    case _ => b == a
  }

  /** At `q` nothing changes except that an ambiguous alternative with one property
      now requires just that; what its `required` was is gone. */
  ghost predicate ChangedOnly(before: Json, after: Json, q: Path) {
    !Replaced(before, q) ==>
      && At(after, q).Some? == At(before, q).Some?
      && (At(before, q).Some? && (forall name :: !Lone(before, q, name)) ==>
            SameBut(At(before, q).value, At(after, q).value, {}))
      && (forall name :: Lone(before, q, name) ==>
            && At(before, q).Some? && SameBut(At(before, q).value, At(after, q).value, {"required"})
            && Member(At(after, q).value, "required") == Some(Arr([Str(name)])))
  }

  // ----- the terms agree -----

  lemma {:induction false} AmbiguousIsUnconstrained(node: Json)
    ensures Ambiguous(node) <==> Unconstrained(node).Some?
    ensures Ambiguous(node) ==> Unconstrained(node) == Some(PropertyNames(node))
    ensures IsReference(node) <==> RefOf(node).Some?
  {
  }

  lemma {:induction false} LoneIsDiscriminant(node: Json, name: string)
    ensures Discriminant(node) == Some(name) <==> HasLone(node, name)
  {
    AmbiguousIsUnconstrained(node);
    if Ambiguous(node) && PropertyNames(node) == {name} {
      assert name in PropertyNames(node);
    }
  }

  lemma {:induction false} AtSnoc(j: Json, path: Path, hop: Hop)
    ensures At(j, path + [hop]) == if At(j, path).None? then None else Child(At(j, path).value, hop)
    decreases |path|
  {
    if path == [] {
      assert path + [hop] == [hop] && [hop][1..] == [];
    } else {
      assert (path + [hop])[1..] == path[1..] + [hop];
      if Child(j, path[0]).Some? {
        AtSnoc(Child(j, path[0]).value, path[1..], hop);
      }
    }
  }

  lemma {:induction false} AlternativeIsBranch(root: Json, path: Path, key: string, i: nat)
    requires IsAlternative(root, path, key, i)
    ensures IsBranch(root, Place(path, key, i))
    ensures At(root, Place(path, key, i)) == Some(Alternative(root, path, key, i))
  {
    assert Place(path, key, i) == path + [Key(key)] + [Index(i)];
    AtSnoc(root, path + [Key(key)], Index(i));
  }

  lemma {:induction false} BranchIsAlternative(root: Json, q: Path) returns (path: Path, key: string, i: nat)
    requires IsBranch(root, q)
    ensures IsAlternative(root, path, key, i) && q == Place(path, key, i)
    ensures At(root, q) == Some(Alternative(root, path, key, i))
  {
    path, key, i := q[..|q| - 2], q[|q| - 2].name, q[|q| - 1].i;
    assert q == path + [Key(key)] + [Index(i)];
    AtSnoc(root, path + [Key(key)], Index(i));
  }

  lemma {:induction false} LoneIsFixed(before: Json, q: Path, name: string)
    requires At(before, q).Some?
    ensures Lone(before, q, name) <==>
              Roles(Plain, q).Branch? && Discriminant(At(before, q).value) == Some(name)
  {
    RolesAreBranches(before, q);
    LoneIsDiscriminant(At(before, q).value, name);
    if IsBranch(before, q) {
      var path, key, i := BranchIsAlternative(before, q);
    }
    if Lone(before, q, name) {
      var path, key, i :| IsAlternative(before, path, key, i) && q == Place(path, key, i)
                          && HasLone(Alternative(before, path, key, i), name);
      AlternativeIsBranch(before, path, key, i);
    }
  }

  // ----- what changes -----

  /** The path goes through no `required` list that the rule replaces. */
  predicate Clear(j: Json, role: Role, q: Path)
    decreases |q|
  {
    q == [] ||
      (&& !(IsFixed(j, role) && q[0] == Key("required"))
       && (Child(j, q[0]).Some? ==> Clear(Child(j, q[0]).value, Below(role, q[0]), q[1..])))
  }

  lemma {:induction false} ClearIsFixed(j: Json, role: Role, q: Path)
    requires Clear(j, role, q)
    ensures At(Fixed(j, role), q).Some? == At(j, q).Some?
    ensures At(j, q).Some? ==> At(Fixed(j, role), q).value == Fixed(At(j, q).value, Roles(role, q))
    decreases |q|
  {
    if q != [] {
      FixedChild(j, role, q[0]);
      if Child(j, q[0]).Some? {
        ClearIsFixed(Child(j, q[0]).value, Below(role, q[0]), q[1..]);
      }
    }
  }

  /** Where a path is not clear there is a branch on it that the rule fixes. */
  lemma {:induction false} Blocked(j: Json, role: Role, q: Path) returns (p: Path)
    requires !Clear(j, role, q)
    ensures p + [Key("required")] <= q && At(j, p).Some? && IsFixed(At(j, p).value, Roles(role, p))
    decreases |q|
  {
    if IsFixed(j, role) && q[0] == Key("required") {
      p := [];
      assert p + [Key("required")] == [q[0]] <= q;
    } else {
      var rest := Blocked(Child(j, q[0]).value, Below(role, q[0]), q[1..]);
      p := [q[0]] + rest;
      assert p + [Key("required")] == [q[0]] + (rest + [Key("required")]);
      assert p[1..] == rest;
    }
  }

  lemma {:induction false} UnreplacedIsClear(before: Json, q: Path)
    requires !Replaced(before, q)
    ensures Clear(before, Plain, q)
  {
    if !Clear(before, Plain, q) {
      var p := Blocked(before, Plain, q);
      LoneIsFixed(before, p, Discriminant(At(before, p).value).value);
    }
  }

  lemma {:induction false} FixedIsSame(j: Json, role: Role)
    ensures SameBut(j, Fixed(j, role), if IsFixed(j, role) then {"required"} else {})
    ensures IsFixed(j, role) ==>
              Member(Fixed(j, role), "required") == Some(Arr([Str(Discriminant(j).value)]))
  {
    if j.Obj? {
      FixedFields(j.fields, role);
    }
  }

  lemma {:induction false} FixedChangesOnly(before: Json, q: Path)
    ensures ChangedOnly(before, Fixed(before, Plain), q)
  {
    if !Replaced(before, q) {
      UnreplacedIsClear(before, q);
      ClearIsFixed(before, Plain, q);
      if At(before, q).Some? {
        FixedIsSame(At(before, q).value, Roles(Plain, q));
        forall name ensures Lone(before, q, name) <==>
            Roles(Plain, q).Branch? && Discriminant(At(before, q).value) == Some(name) {
          LoneIsFixed(before, q, name);
        }
      } else {
        LoneIsThere(before, q);
      }
    }
  }

  lemma {:induction false} LoneIsThere(before: Json, q: Path)
    ensures forall name :: Lone(before, q, name) ==> At(before, q).Some?
  {
    forall name | Lone(before, q, name) ensures At(before, q).Some? {
      var path, key, i :| IsAlternative(before, path, key, i) && q == Place(path, key, i)
                          && HasLone(Alternative(before, path, key, i), name);
      AlternativeIsBranch(before, path, key, i);
    }
  }

  // ----- what is reported -----

  lemma {:induction false} AccountedInPlainTerms(root: Json, path: Path, key: string, i: nat,
                                                 unresolved: seq<Unresolved>)
    requires IsAlternative(root, path, key, i) && At(root, Place(path, key, i)).Some?
    requires Accounted(root, Place(path, key, i), unresolved)
    requires Discriminant(Alternative(root, path, key, i)).None?
    ensures ToldApartOrReported(root, path, key, i, unresolved)
  {
    var node := Alternative(root, path, key, i);
    AlternativeIsBranch(root, path, key, i);
    AmbiguousIsUnconstrained(node);
    forall name ensures Ambiguous(node) && !IsReference(node) ==> PropertyNames(node) != {name} {
      LoneIsDiscriminant(node, name);
    }
    forall target | RefersToAmbiguous(root, node, target)
      ensures Unresolved(Pointer(Place(path, key, i)), RefersTo(target)) in unresolved
    {
      AmbiguousIsUnconstrained(Eval(root, target[1..]).value);
    }
  }

  lemma {:induction false} FoundedInPlainTerms(before: Json, report: Unresolved)
    requires Founded(before, report)
    ensures Grounded(before, report)
  {
    var q :| && IsBranch(before, q) && report.pointer == Pointer(q)
             && Obstacle(before, At(before, q).value) == Some(report.cause)
             && Discriminant(At(before, q).value).None?;
    var path, key, i := BranchIsAlternative(before, q);
    var node := Alternative(before, path, key, i);
    AmbiguousIsUnconstrained(node);
    match report.cause
    case HasProperties(names) =>
      forall name ensures names != {name} {
        LoneIsDiscriminant(node, name);
      }
    case RefersTo(target) =>
      AmbiguousIsUnconstrained(Eval(before, target[1..]).value);
  }

  /** After the pass no alternative of either key is ambiguous, or refers to anything
      ambiguous, without being reported with the reason; every report had its
      ground; and nothing else has changed than what alternatives with one
      property require. */
  lemma {:induction false} PassInPlainTerms(before: Json, order: seq<Path>)
    requires Lists(order, before)
    ensures var (root, unresolved) := Pass(before, Pointers("", order));
            && (forall path, key, i :: IsAlternative(root, path, key, i) ==>
                  ToldApartOrReported(root, path, key, i, unresolved))
            && (forall report <- unresolved :: Grounded(before, report))
            && (forall q :: ChangedOnly(before, root, q))
  {
    PassIsRight(before, order);
    var (root, unresolved) := Pass(before, Pointers("", order));
    forall path, key, i | IsAlternative(root, path, key, i)
      ensures ToldApartOrReported(root, path, key, i, unresolved)
    {
      AlternativeIsBranch(root, path, key, i);
      FixedIsDone(before, Plain);
      RolesAreBranches(root, Place(path, key, i));
      AccountedInPlainTerms(root, path, key, i, unresolved);
    }
    forall report | report in unresolved ensures Grounded(before, report) {
      FoundedInPlainTerms(before, report);
    }
    forall q ensures ChangedOnly(before, root, q) {
      FixedChangesOnly(before, q);
    }
  }
}
