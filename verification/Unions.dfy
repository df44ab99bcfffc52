/** Discriminants of tagged unions in an API description: build_support/normalize.rs. */
module Unions {
  import opened Prelude
  import opened JsonTrees

  predicate IsUnionKey(key: string) {
    key == "oneOf" || key == "anyOf"
  }

  predicate EndsInUnion(path: Path) {
    && |path| >= 2 && path[|path| - 1].Index?
    && path[|path| - 2].Key? && IsUnionKey(path[|path| - 2].name)
  }

  /** The node at `path` is a branch of a `oneOf` or `anyOf` list. */
  predicate IsBranch(j: Json, path: Path) {
    EndsInUnion(path) && At(j, path).Some?
  }

  /** Property names of an object schema with properties and no usable `required` list. */
  function Unconstrained(schema: Json): Option<set<string>> {
    var ty, properties, required := Member(schema, "type"), Member(schema, "properties"), Member(schema, "required");
    var isObject := if ty.Some? then ty.value == Str("object") else properties.Some?;
    var hasRequired := required.Some? && required.value.Arr? && required.value.items != [];
    if properties.None? || !properties.value.Obj? then None
    else if isObject && !hasRequired && properties.value.fields != map[] then Some(properties.value.fields.Keys)
    else None
  }

  function RefOf(schema: Json): Option<string> {
    var r := Member(schema, "$ref");
    if r.Some? && r.value.Str? then Some(r.value.s) else None
  }

  /** The lone property of a branch the rule may fix. */
  function Discriminant(branch: Json): Option<string> {
    var names := Unconstrained(branch);
    if RefOf(branch).None? && names.Some? && exists name :: name in names.value && names.value == {name} then
      var name :| name in names.value && names.value == {name};
      Some(name)
    else
      None
  }

  function Requiring(name: string): Json {
    Arr([Str(name)])
  }

  // ----- the rewrite in one go -----

  /** Where a node stands: below a union key, in such a list, or anywhere else. */
  datatype Role = Plain | List | Branch

  function Below(role: Role, hop: Hop): Role {
    if hop.Key? then (if IsUnionKey(hop.name) then List else Plain) else if role.List? then Branch else Plain
  }

  function Roles(role: Role, path: Path): Role
    decreases |path|
  {
    if path == [] then role else Roles(Below(role, path[0]), path[1..])
  }

  /** The tree with every fixable branch fixed, innermost first. */
  function Fixed(j: Json, role: Role): Json {
    match j
    case Arr(items) => Arr(seq(|items|, i requires 0 <= i < |items| => Fixed(items[i], Below(role, Index(i)))))
    case Obj(fields) =>
      var inner := map key | key in fields :: Fixed(fields[key], Below(role, Key(key)));
      var only := Discriminant(j);
      Obj(if role.Branch? && only.Some? then inner["required" := Requiring(only.value)] else inner)
    case _ => j
  }

  // ----- the rewrite step by step -----

  /** The node the tokens lead to gets a `required` list. */
  function Mark(j: Json, tokens: seq<string>, name: string): Json
    decreases |tokens|
  {
    if tokens == [] then
      if j.Obj? then Obj(j.fields["required" := Requiring(name)]) else j
    else if j.Obj? && tokens[0] in j.fields then
      Obj(j.fields[tokens[0] := Mark(j.fields[tokens[0]], tokens[1..], name)])
    else if j.Arr? && ParseIndex(tokens[0]).Some? && ParseIndex(tokens[0]).value < |j.items| then
      var i := ParseIndex(tokens[0]).value;
      Arr(j.items[i := Mark(j.items[i], tokens[1..], name)])
    else j
  }

  /** The rule may fix the node at `path`, which is the root or in an array. */
  predicate Fixable(j: Json, path: Path, name: string) {
    && (path != [] ==> path[|path| - 1].Index?)
    && At(j, path).Some? && Discriminant(At(j, path).value) == Some(name)
  }

  /** The tree after the node at `path` is fixed. */
  function Marked(j: Json, path: Path, name: string): Json {
    Mark(j, Tokens(path), name)
  }

  lemma {:induction false} MarkedBelow(j: Json, path: Path, name: string)
    requires path != [] && At(j, path).Some?
    ensures var child := Marked(Child(j, path[0]).value, path[1..], name);
            Marked(j, path, name) == if path[0].Key? then Obj(j.fields[path[0].name := child])
                                     else Arr(j.items[path[0].i := child])
  {
    assert Tokens(path)[1..] == Tokens(path[1..]);
    if path[0].Index? {
      IndexParses(path[0].i);
    }
  }

  lemma {:induction false} MarkedChild(j: Json, path: Path, name: string)
    requires path != [] && At(j, path).Some?
    ensures Child(Marked(j, path, name), path[0]) == Some(Marked(Child(j, path[0]).value, path[1..], name))
    ensures forall hop :: hop != path[0] ==> Child(Marked(j, path, name), hop) == Child(j, hop)
  {
    MarkedBelow(j, path, name);
  }

  /** `b` refers where `a` does and is unconstrained only where `a` is, in the same way. */
  predicate NoWorse(a: Json, b: Json) {
    && RefOf(b) == RefOf(a)
    && (Unconstrained(b).Some? ==> Unconstrained(b) == Unconstrained(a))
  }

  /** Two objects with the same keys, or two arrays of the same length. */
  predicate SameShape(a: Json, b: Json) {
    || (a.Obj? && b.Obj? && a.fields.Keys == b.fields.Keys)
    || (a.Arr? && b.Arr? && |a.items| == |b.items|)
  }

  lemma {:induction false} ShapeIsAllThatCounts(fields: map<string, Json>, key: string, child: Json)
    requires key in fields && SameShape(fields[key], child)
    ensures var a, b := Obj(fields), Obj(fields[key := child]);
            RefOf(a) == RefOf(b) && Unconstrained(a) == Unconstrained(b)
  {
    var a, b := Obj(fields), Obj(fields[key := child]);
    assert key != "type" ==> Member(b, "type") == Member(a, "type");
    assert key != "required" ==> Member(b, "required") == Member(a, "required");
    assert key != "properties" ==> Member(b, "properties") == Member(a, "properties");
    assert key == "properties" && child.Obj? ==>
        && (child.fields == map[] <==> child.fields.Keys == {})
        && (fields[key].fields == map[] <==> fields[key].fields.Keys == {});
  }

  lemma {:induction false} MarkedShape(j: Json, path: Path, name: string)
    requires path != [] && At(j, path).Some?
    ensures SameShape(j, Marked(j, path, name))
  {
    MarkedBelow(j, path, name);
  }

  lemma {:induction false} MarkedHere(j: Json, name: string)
    requires Fixable(j, [], name)
    ensures Marked(j, [], name) == Obj(j.fields["required" := Requiring(name)])
    ensures RefOf(Marked(j, [], name)) == RefOf(j) && Unconstrained(Marked(j, [], name)).None?
  {
  }

  lemma {:induction false} MarkedAbove(j: Json, path: Path, name: string)
    requires Fixable(j, path, name) && path != []
    ensures RefOf(Marked(j, path, name)) == RefOf(j)
    ensures Unconstrained(Marked(j, path, name)) == Unconstrained(j)
  {
    MarkedBelow(j, path, name);
    if path[0].Key? {
      MarkedShape(Child(j, path[0]).value, path[1..], name);
      ShapeIsAllThatCounts(j.fields, path[0].name, Marked(Child(j, path[0]).value, path[1..], name));
    }
  }

  lemma {:induction false} SameInner(fields: map<string, Json>, role: Role, key: string, child: Json)
    requires key in fields && Fixed(child, Below(role, Key(key))) == Fixed(fields[key], Below(role, Key(key)))
    ensures var after := fields[key := child];
            (map k | k in after :: Fixed(after[k], Below(role, Key(k))))
            == map k | k in fields :: Fixed(fields[k], Below(role, Key(k)))
  {
  }

  lemma {:induction false} FixedFields(fields: map<string, Json>, role: Role)
    ensures var inner := map key | key in fields :: Fixed(fields[key], Below(role, Key(key)));
            var only := Discriminant(Obj(fields));
            Fixed(Obj(fields), role)
            == Obj(if role.Branch? && only.Some? then inner["required" := Requiring(only.value)] else inner)
  {
  }

  lemma {:induction false} RequiringIsFixed(name: string, role: Role)
    requires !role.List?
    ensures Fixed(Requiring(name), role) == Requiring(name)
  {
    assert Fixed(Str(name), Below(role, Index(0))) == Str(name);
  }

  lemma {:induction false} FixedAfterMark(j: Json, name: string)
    requires Fixable(j, [], name)
    ensures Fixed(Marked(j, [], name), Branch) == Fixed(j, Branch)
  {
    MarkedHere(j, name);
    RequiringIsFixed(name, Below(Branch, Key("required")));
    FixedFields(j.fields, Branch);
    FixedFields(j.fields["required" := Requiring(name)], Branch);
  }

  lemma {:induction false} FixedItems(items: seq<Json>, role: Role, i: nat, child: Json)
    requires i < |items| && Fixed(child, Below(role, Index(i))) == Fixed(items[i], Below(role, Index(i)))
    ensures Fixed(Arr(items[i := child]), role) == Fixed(Arr(items), role)
  {
    var a, b := Fixed(Arr(items[i := child]), role), Fixed(Arr(items), role);
    assert forall k :: 0 <= k < |items| ==> a.items[k] == b.items[k];
  }

  lemma {:induction false} FixedMember(fields: map<string, Json>, role: Role, key: string, child: Json)
    requires key in fields && Fixed(child, Below(role, Key(key))) == Fixed(fields[key], Below(role, Key(key)))
    requires Discriminant(Obj(fields[key := child])) == Discriminant(Obj(fields))
    ensures Fixed(Obj(fields[key := child]), role) == Fixed(Obj(fields), role)
  {
    SameInner(fields, role, key, child);
    FixedFields(fields, role);
    FixedFields(fields[key := child], role);
  }

  /** Fixing one branch does not change what the finished tree looks like. */
  lemma {:induction false} MarkedThenFixed(j: Json, role: Role, path: Path, name: string)
    requires Fixable(j, path, name) && Roles(role, path).Branch?
    ensures Fixed(Marked(j, path, name), role) == Fixed(j, role)
    decreases |path|
  {
    if path == [] {
      FixedAfterMark(j, name);
    } else {
      MarkedBelow(j, path, name);
      MarkedAbove(j, path, name);
      MarkedThenFixed(Child(j, path[0]).value, Below(role, path[0]), path[1..], name);
      var child := Marked(Child(j, path[0]).value, path[1..], name);
      if path[0].Key? {
        FixedMember(j.fields, role, path[0].name, child);
      } else {
        FixedItems(j.items, role, path[0].i, child);
      }
    }
  }

  // ----- what the rewrite achieves -----

  /** No branch is left that the rule could fix. */
  ghost predicate Done(j: Json, role: Role) {
    forall path :: At(j, path).Some? && Roles(role, path).Branch? ==> Discriminant(At(j, path).value).None?
  }

  lemma {:induction false} DoneBelow(j: Json, role: Role, hop: Hop)
    requires Done(j, role) && Child(j, hop).Some?
    ensures Done(Child(j, hop).value, Below(role, hop))
  {
    forall path | At(Child(j, hop).value, path).Some? && Roles(Below(role, hop), path).Branch?
      ensures Discriminant(At(Child(j, hop).value, path).value).None?
    {
      assert ([hop] + path)[1..] == path;
      assert At(j, [hop] + path) == At(Child(j, hop).value, path);
    }
  }

  /** A tree with nothing left to fix is left alone. */
  lemma {:induction false} NothingToFix(j: Json, role: Role)
    requires Done(j, role)
    ensures Fixed(j, role) == j
  {
    if j.Arr? {
      forall i | 0 <= i < |j.items| ensures Fixed(j.items[i], Below(role, Index(i))) == j.items[i] {
        DoneBelow(j, role, Index(i));
        NothingToFix(j.items[i], Below(role, Index(i)));
      }
    } else if j.Obj? {
      forall key | key in j.fields ensures Fixed(j.fields[key], Below(role, Key(key))) == j.fields[key] {
        DoneBelow(j, role, Key(key));
        NothingToFix(j.fields[key], Below(role, Key(key)));
      }
      assert At(j, []) == Some(j);
    }
  }

  lemma {:induction false} RolesSnoc(role: Role, path: Path, hop: Hop)
    ensures Roles(role, path + [hop]) == Below(Roles(role, path), hop)
    decreases |path|
  {
    if path == [] {
      assert path + [hop] == [hop];
    } else {
      assert (path + [hop])[1..] == path[1..] + [hop];
      RolesSnoc(Below(role, path[0]), path[1..], hop);
    }
  }

  /** Roles single out exactly the branches. */
  lemma {:induction false} RolesAreBranches(j: Json, path: Path)
    requires At(j, path).Some?
    ensures Roles(Plain, path).Branch? <==> IsBranch(j, path)
  {
    if path != [] {
      RolesEnd(path);
      if |path| > 1 {
        RolesEnd(path[..|path| - 1]);
      }
    }
  }

  lemma {:induction false} RolesEnd(path: Path)
    requires path != []
    ensures Roles(Plain, path) == Below(Roles(Plain, path[..|path| - 1]), path[|path| - 1])
  {
    assert path == path[..|path| - 1] + [path[|path| - 1]];
    RolesSnoc(Plain, path[..|path| - 1], path[|path| - 1]);
  }

  lemma {:induction false} FixedShape(j: Json, role: Role)
    ensures j.Arr? || (j.Obj? && !(role.Branch? && Discriminant(j).Some?)) ==> SameShape(j, Fixed(j, role))
    ensures !j.Arr? && !j.Obj? ==> Fixed(j, role) == j
  {
    if j.Obj? {
      FixedFields(j.fields, role);
    }
  }

  /** Only `required` can make a difference to how a node is constrained. */
  lemma {:induction false} FixedConstraint(j: Json, role: Role)
    ensures RefOf(Fixed(j, role)) == RefOf(j)
    ensures Unconstrained(Fixed(j, role)) == if role.Branch? && Discriminant(j).Some? then None else Unconstrained(j)
  {
    if j.Obj? {
      FixedFields(j.fields, role);
      FixedMembers(j, role, "type");
      FixedMembers(j, role, "properties");
      FixedMembers(j, role, "$ref");
      FixedMembers(j, role, "required");
    }
  }

  lemma {:induction false} FixedMembers(j: Json, role: Role, key: string)
    requires j.Obj? && !IsUnionKey(key)
    ensures var a, b := Member(j, key), Member(Fixed(j, role), key);
            if key == "required" && role.Branch? && Discriminant(j).Some? then
              b == Some(Requiring(Discriminant(j).value))
            else a.Some? == b.Some? && (a.Some? ==>
              && (a.value.Obj? == b.value.Obj?) && (a.value.Arr? == b.value.Arr?)
              && (a.value.Obj? || a.value.Arr? ==> SameShape(a.value, b.value))
              && (!a.value.Obj? && !a.value.Arr? ==> a == b))
  {
    FixedFields(j.fields, role);
    if key in j.fields {
      FixedShape(j.fields[key], Plain);
    }
  }

  lemma {:induction false} FixedChild(j: Json, role: Role, hop: Hop)
    requires !(role.Branch? && Discriminant(j).Some? && hop == Key("required"))
    ensures Child(Fixed(j, role), hop).Some? <==> Child(j, hop).Some?
    ensures Child(j, hop).Some? ==> Child(Fixed(j, role), hop).value == Fixed(Child(j, hop).value, Below(role, hop))
  {
    if j.Obj? {
      FixedFields(j.fields, role);
    }
  }

  /** Every branch of the finished tree is a branch of the first one, fixed. */
  lemma {:induction false} FixedBranch(j: Json, role: Role, path: Path)
    requires At(Fixed(j, role), path).Some? && Roles(role, path).Branch?
    ensures At(j, path).Some? && At(Fixed(j, role), path).value == Fixed(At(j, path).value, Branch)
    decreases |path|
  {
    if path != [] {
      if role.Branch? && Discriminant(j).Some? && path[0] == Key("required") {
        FixedFields(j.fields, role);
        assert Child(Fixed(j, role), path[0]) == Some(Requiring(Discriminant(j).value));
        NoBranchInRequired(Discriminant(j).value, path[1..]);
      } else {
        FixedChild(j, role, path[0]);
        FixedBranch(Child(j, path[0]).value, Below(role, path[0]), path[1..]);
      }
    }
  }

  lemma {:induction false} NoBranchInRequired(name: string, path: Path)
    ensures At(Requiring(name), path).Some? ==> !Roles(Plain, path).Branch?
  {
    if |path| >= 2 && At(Requiring(name), path).Some? {
      assert At(Str(name), path[1..]).None?;
    }
  }

  /** Nothing fixable is left, however deep the unions nest. */
  lemma {:induction false} FixedIsDone(j: Json, role: Role)
    ensures Done(Fixed(j, role), role)
  {
    forall path | At(Fixed(j, role), path).Some? && Roles(role, path).Branch?
      ensures Discriminant(At(Fixed(j, role), path).value).None?
    {
      FixedBranch(j, role, path);
      FixedConstraint(At(j, path).value, Branch);
    }
  }

  lemma {:induction false} FixedTwice(j: Json, role: Role)
    ensures Fixed(Fixed(j, role), role) == Fixed(j, role)
  {
    FixedIsDone(j, role);
    NothingToFix(Fixed(j, role), role);
  }

  // ----- what it means for the objects a branch takes -----

  predicate Demands(schema: Json, name: string) {
    var required := Member(schema, "required");
    required.Some? && required.value.Arr? && Str(name) in required.value.items
  }

  /** An object with these keys has all that `schema` requires. */
  ghost predicate Takes(schema: Json, keys: set<string>) {
    forall name :: Demands(schema, name) ==> name in keys
  }

  /** An under-constrained object takes whatever the others take. */
  lemma {:induction false} AmbiguousTakesAll(schema: Json, keys: set<string>)
    requires Unconstrained(schema).Some?
    ensures Takes(schema, keys)
  {
  }

  /** Finishing the items of a `required` list leaves the names in it. */
  lemma {:induction false} FixedNames(items: seq<Json>, name: string)
    ensures Str(name) in Fixed(Arr(items), Plain).items <==> Str(name) in items
  {
    var after := Fixed(Arr(items), Plain).items;
    forall i | 0 <= i < |items| ensures after[i] == Str(name) <==> items[i] == Str(name) {
      FixedShape(items[i], Plain);
    }
    if Str(name) in items {
      var i :| 0 <= i < |items| && items[i] == Str(name);
      assert after[i] == Str(name);
    }
  }

  /** A branch the rule fixes took every object, and takes exactly those with
      its key afterwards; any other branch takes the objects it took, which is
      every object while it is under-constrained. */
  lemma {:induction false} BranchesDiscriminate(root: Json, path: Path, keys: set<string>)
    requires IsBranch(Fixed(root, Plain), path)
    ensures At(root, path).Some?
    ensures var before, after := At(root, path).value, At(Fixed(root, Plain), path).value;
            if Discriminant(before).Some? then
              Takes(before, keys) && (Takes(after, keys) <==> Discriminant(before).value in keys)
            else (Takes(after, keys) <==> Takes(before, keys)) && (Unconstrained(after).Some? ==> Takes(after, keys))
  {
    RolesAreBranches(Fixed(root, Plain), path);
    FixedBranch(root, Plain, path);
    var before := At(root, path).value;
    var after := Fixed(before, Branch);
    if Unconstrained(after).Some? {
      AmbiguousTakesAll(after, keys);
    }
    if before.Obj? {
      FixedFields(before.fields, Branch);
      if Discriminant(before).Some? {
        assert forall name :: Demands(after, name) <==> name == Discriminant(before).value;
      } else if "required" in before.fields && before.fields["required"].Arr? {
        forall name ensures Demands(after, name) <==> Demands(before, name) {
          FixedNames(before.fields["required"].items, name);
        }
      } else if "required" in before.fields {
        FixedShape(before.fields["required"], Plain);
      }
    }
  }

  /** Two fixed branches with different keys: an object with one key and not the
      other is taken by that one's branch alone. */
  lemma {:induction false} BranchesToldApart(root: Json, p: Path, q: Path, keys: set<string>)
    requires IsBranch(Fixed(root, Plain), p) && IsBranch(Fixed(root, Plain), q)
    requires At(root, p).Some? && Discriminant(At(root, p).value).Some?
    requires At(root, q).Some? && Discriminant(At(root, q).value).Some?
    requires Discriminant(At(root, p).value).value in keys && Discriminant(At(root, q).value).value !in keys
    ensures Takes(At(root, p).value, keys) && Takes(At(root, q).value, keys)
    ensures Takes(At(Fixed(root, Plain), p).value, keys) && !Takes(At(Fixed(root, Plain), q).value, keys)
  {
    BranchesDiscriminate(root, p, keys);
    BranchesDiscriminate(root, q, keys);
  }
}
