/** The in-place normalizations of an API description: build_support/normalize.rs. */
module Normalizer {
  import opened Prelude
  import opened JsonTrees
  import opened Unions
  import opened UnionBranches
  import opened UnionSteps
  import opened UnionOutcome
  import opened Responses

  lemma {:induction false} LoneName(names: set<string>, only: string)
    requires only in names && |names| == 1
    ensures names == {only}
  {
    assert |names - {only}| == 0;
  }

  lemma {:induction false} NextMethod(item: Json, n: nat)
    requires n < |METHODS|
    ensures METHODS[n] !in METHODS[..n]
    ensures item.Obj? && METHODS[n] in item.fields ==>
        NewItem(item, METHODS[..n + 1]) ==
          Obj(NewItem(item, METHODS[..n]).fields[METHODS[n] := NewOperation(item.fields[METHODS[n]])])
    ensures !item.Obj? || METHODS[n] !in item.fields ==> NewItem(item, METHODS[..n + 1]) == NewItem(item, METHODS[..n])
  {
    assert METHODS[..n + 1] == METHODS[..n] + [METHODS[n]];
    assert forall i, k :: 0 <= i < k < 8 ==> METHODS[i] != METHODS[k] by {
      forall i, k | 0 <= i < k < 8 ensures METHODS[i] != METHODS[k] {
        assert METHODS == ["get", "put", "post", "delete", "patch", "head", "options", "trace"];
      }
    }
  }

  /** The two loops over one response table. */
  method RewriteTable(table: Table) returns (responses: Table)
    ensures responses == Rewritten(table)
  {
    responses := table;
    var successes := set code | code in responses && IsSuccess(code);
    if |successes| > 1 {
      var surplus := successes - {"200"};
      while surplus != {}
        invariant surplus <= successes - {"200"}
        invariant responses == map code | code in table && code !in successes - {"200"} - surplus :: table[code]
      {
        var code :| code in surplus;
        responses, surplus := responses - {code}, surplus - {code};
      }
    }
    assert responses == WithoutSurplus(table);
    if successes == {} || "default" !in responses {
      return;
    }
    var default' := responses["default"];
    responses := responses - {"default"};
    var ranges := ["4XX", "5XX"];
    for i := 0 to 2
      invariant forall code :: code in responses <==>
          (code in WithoutSurplus(table) && code != "default") || code in ranges[..i]
      invariant forall code <- responses ::
          responses[code] == if code in WithoutSurplus(table) then WithoutSurplus(table)[code] else default'
    {
      if ranges[i] !in responses {
        responses := responses[ranges[i] := default'];
      }
    }
    assert ranges[..2] == ["4XX", "5XX"];
    assert responses == Spread(WithoutSurplus(table));
  }

  class Spec {
    var root: Json

    constructor (root: Json)
      ensures this.root == root
    {
      this.root := root;
    }

    /** Rewrites the response table of every operation. */
    method NormalizeResponses()
      modifies this
      ensures root == Normalized(old(root))
    {
      var paths := Member(root, "paths");
      if paths.None? || !paths.value.Obj? {
        return;
      }
      var items, todo := paths.value.fields, paths.value.fields.Keys;
      while todo != {}
        invariant root == old(root) && todo <= paths.value.fields.Keys
        invariant items == NewPaths(paths.value.fields, paths.value.fields.Keys - todo)
      {
        var path :| path in todo;
        var item := items[path];
        for n := 0 to |METHODS|
          invariant root == old(root) && item == NewItem(items[path], METHODS[..n])
        {
          NextMethod(items[path], n);
          if item.Obj? && METHODS[n] in item.fields {
            var op := NormalizeOperation(item.fields[METHODS[n]]);
            item := Obj(item.fields[METHODS[n] := op]);
          }
        }
        assert METHODS[..|METHODS|] == METHODS;
        items, todo := items[path := item], todo - {path};
      }
      assert paths.value.fields.Keys - todo == paths.value.fields.Keys;
      root := Obj(root.fields["paths" := Obj(items)]);
    }

    method NormalizeOperation(op: Json) returns (after: Json)
      ensures after == NewOperation(op)
    {
      var responses := Member(op, "responses");
      if responses.None? || !responses.value.Obj? {
        return op;
      }
      var table := RewriteTable(responses.value.fields);
      after := Obj(op.fields["responses" := Obj(table)]);
    }

    /** Makes the lone property of every union branch that has one required, and
        reports what it cannot fix; `order` is the order of the collected branches. */
    method RequireUnionDiscriminants() returns (unresolved: seq<Unresolved>, ghost order: seq<Path>)
      modifies this
      ensures Lists(order, old(root)) && (root, unresolved) == Pass(old(root), Pointers("", order))
      ensures root == Fixed(old(root), Plain)
      ensures forall path :: IsBranch(root, path) ==> Accounted(root, path, unresolved)
      ensures forall report <- unresolved :: Founded(old(root), report)
      ensures forall path, key, i :: IsAlternative(root, path, key, i) ==>
                ToldApartOrReported(root, path, key, i, unresolved)
      ensures forall report <- unresolved :: Grounded(old(root), report)
      ensures forall path :: ChangedOnly(old(root), root, path)
    {
      ghost var before := root;
      var branches := new BranchList();
      order := branches.Collect(root, "");
      assert branches.out == Pointers("", order);
      unresolved := AttendAll(branches.out);
      PassIsRight(before, order);
      PassInPlainTerms(before, order);
    }

    /** The loop over the collected pointers. */
    method AttendAll(pointers: seq<string>) returns (unresolved: seq<Unresolved>)
      modifies this
      ensures (root, unresolved) == Pass(old(root), pointers)
    {
      ghost var whole := Pass(root, pointers);
      unresolved := [];
      assert pointers[0..] == pointers && [] + whole.1 == whole.1;
      for n := 0 to |pointers|
        invariant whole.0 == Pass(root, pointers[n..]).0
        invariant whole.1 == unresolved + Pass(root, pointers[n..]).1
      {
        PassOneMore(root, pointers, n, unresolved);
        var cause := RequireDiscriminant(pointers[n]);
        unresolved := unresolved + if cause.Some? then [Unresolved(pointers[n], cause.value)] else [];
      }
      assert unresolved + [] == unresolved;
    }

    /** One branch: fixed, reported or left. */
    method RequireDiscriminant(pointer: string) returns (cause: Option<Cause>)
      modifies this
      ensures (root, cause) == Attend(old(root), pointer)
    {
      var branch := Eval(root, pointer);
      if branch.None? {
        return None;
      }
      var target, names := RefOf(branch.value), Unconstrained(branch.value);
      if target.Some? {
        return if TargetNames(root, target.value).Some? then Some(RefersTo(target.value)) else None;
      }
      if names.None? {
        return None;
      }
      if |names.value| == 1 {
        var only :| only in names.value;
        assert branch.value.Obj?;
        LoneName(names.value, only);
        root := Mark(root, ParsePointer(pointer).value, only);
        return None;
      }
      cause := Some(HasProperties(names.value));
    }
  }
}
