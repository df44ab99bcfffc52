/** Collecting the pointers of all union branches of a tree. */
module UnionBranches {
  import opened Text
  import opened JsonTrees
  import opened Unions

  ghost predicate Distinct(paths: seq<Path>) {
    forall i, k :: 0 <= i < k < |paths| ==> paths[i] != paths[k]
  }

  /** `found` lists, once each, the branches of `j` whose first hop is in `seen`. */
  ghost predicate ListsPart(found: seq<Path>, j: Json, seen: set<Hop>) {
    && Distinct(found)
    && forall path :: path in found <==> IsBranch(j, path) && path[0] in seen
  }

  /** `found` lists every branch of `j` once. */
  ghost predicate Lists(found: seq<Path>, j: Json) {
    Distinct(found) && forall path :: path in found <==> IsBranch(j, path)
  }

  function Pointers(pointer: string, paths: seq<Path>): seq<string> {
    seq(|paths|, i requires 0 <= i < |paths| => pointer + Pointer(paths[i]))
  }

  function Prefixed(hop: Hop, paths: seq<Path>): seq<Path> {
    seq(|paths|, i requires 0 <= i < |paths| => [hop] + paths[i])
  }

  /** The branches a union key itself lists, seen from its value. */
  function Listed(hop: Hop, child: Json): seq<Path> {
    if hop.Key? && IsUnionKey(hop.name) && child.Arr? then
      seq(|child.items|, i requires 0 <= i < |child.items| => [Index(i)])
    else []
  }

  lemma {:induction false} ListedIs(hop: Hop, child: Json, path: Path)
    ensures path in Listed(hop, child) <==>
      hop.Key? && IsUnionKey(hop.name) && |path| == 1 && path[0].Index? && At(child, path).Some?
  {
    if |path| == 1 && path[0].Index? && At(child, path).Some? && hop.Key? && IsUnionKey(hop.name) {
      assert Listed(hop, child)[path[0].i] == path;
    }
  }

  /** The branches below a hop are those the hop lists and those of the node it leads to. */
  lemma {:induction false} BranchBelow(j: Json, hop: Hop, path: Path)
    requires Child(j, hop).Some?
    ensures IsBranch(j, [hop] + path) <==>
      path in Listed(hop, Child(j, hop).value) || IsBranch(Child(j, hop).value, path)
  {
    ListedIs(hop, Child(j, hop).value, path);
    var long := [hop] + path;
    assert long[1..] == path;
    assert At(j, long) == At(Child(j, hop).value, path);
    if |path| >= 2 {
      assert long[|long| - 1] == path[|path| - 1] && long[|long| - 2] == path[|path| - 2];
    }
  }

  lemma {:induction false} InPrefixed(hop: Hop, paths: seq<Path>, path: Path)
    ensures path in Prefixed(hop, paths) <==> path != [] && path[0] == hop && path[1..] in paths
  {
    if path != [] && path[0] == hop && path[1..] in paths {
      var i :| 0 <= i < |paths| && paths[i] == path[1..];
      assert Prefixed(hop, paths)[i] == path;
    }
    if path in Prefixed(hop, paths) {
      var i :| 0 <= i < |paths| && Prefixed(hop, paths)[i] == path;
      assert path[1..] == paths[i];
    }
  }

  lemma {:induction false} PrefixedDistinct(hop: Hop, paths: seq<Path>)
    requires Distinct(paths)
    ensures Distinct(Prefixed(hop, paths))
  {
    forall i, k | 0 <= i < k < |paths| ensures Prefixed(hop, paths)[i] != Prefixed(hop, paths)[k] {
      assert Prefixed(hop, paths)[i][1..] == paths[i] && Prefixed(hop, paths)[k][1..] == paths[k];
    }
  }

  lemma {:induction false} ListedThenInner(hop: Hop, child: Json, inner: seq<Path>)
    requires Lists(inner, child)
    ensures Distinct(Listed(hop, child) + inner)
  {
    var listed := Listed(hop, child);
    forall i, k | 0 <= i < k < |listed| ensures listed[i] != listed[k] {
      assert listed[i][0] != listed[k][0];
    }
    forall i, k | 0 <= i < |listed| && 0 <= k < |inner| ensures listed[i] != inner[k] {
      assert inner[k] in inner && |inner[k]| >= 2;
    }
  }

  /** One more hop's worth of branches. */
  lemma {:induction false} ListsOneMore(found: seq<Path>, j: Json, seen: set<Hop>, hop: Hop, inner: seq<Path>)
    requires ListsPart(found, j, seen) && hop !in seen
    requires Child(j, hop).Some? && Lists(inner, Child(j, hop).value)
    ensures ListsPart(found + Prefixed(hop, Listed(hop, Child(j, hop).value) + inner), j, seen + {hop})
  {
    var fresh' := Listed(hop, Child(j, hop).value) + inner;
    var all := found + Prefixed(hop, fresh');
    ListedThenInner(hop, Child(j, hop).value, inner);
    PrefixedDistinct(hop, fresh');
    forall path ensures path in all <==> IsBranch(j, path) && path[0] in seen + {hop} {
      InPrefixed(hop, fresh', path);
      if path != [] && path[0] == hop {
        assert path == [hop] + path[1..];
        BranchBelow(j, hop, path[1..]);
      }
    }
    forall i, k | 0 <= i < k < |all| ensures all[i] != all[k] {
      if i < |found| <= k {
        assert found[i] in found && all[k] in Prefixed(hop, fresh');
        InPrefixed(hop, fresh', all[k]);
      } else if |found| <= i {
        assert all[i] == Prefixed(hop, fresh')[i - |found|] && all[k] == Prefixed(hop, fresh')[k - |found|];
      }
    }
  }

  lemma {:induction false} PointerBelow(pointer: string, hop: Hop, path: Path)
    ensures pointer + Pointer([hop] + path) == (pointer + "/" + Written(hop)) + Pointer(path)
  {
    assert ([hop] + path)[1..] == path;
  }

  lemma {:induction false} PointersBelow(pointer: string, hop: Hop, paths: seq<Path>)
    ensures Pointers(pointer, Prefixed(hop, paths)) == Pointers(pointer + "/" + Written(hop), paths)
  {
    var a, b := Pointers(pointer, Prefixed(hop, paths)), Pointers(pointer + "/" + Written(hop), paths);
    forall i | 0 <= i < |paths| ensures a[i] == b[i] {
      PointerBelow(pointer, hop, paths[i]);
    }
    assert |a| == |b|;
  }

  lemma {:induction false} PointersConcat(pointer: string, a: seq<Path>, b: seq<Path>)
    ensures Pointers(pointer, a + b) == Pointers(pointer, a) + Pointers(pointer, b)
  {
  }

  /** Pushing twice is pushing both. */
  lemma {:induction false} PushedBoth(start: seq<string>, pointer: string, a: seq<Path>, b: seq<Path>)
    ensures start + Pointers(pointer, a) + Pointers(pointer, b) == start + Pointers(pointer, a + b)
  {
    PointersConcat(pointer, a, b);
  }

  lemma {:induction false} PointersListed(pointer: string, hop: Hop, child: Json)
    requires hop.Key? && IsUnionKey(hop.name) && child.Arr?
    ensures Pointers(pointer, Listed(hop, child)) ==
      seq(|child.items|, i requires 0 <= i < |child.items| => pointer + "/" + Print(i))
  {
    forall i | 0 <= i < |child.items| ensures pointer + Pointer(Listed(hop, child)[i]) == pointer + "/" + Print(i) {
      assert Listed(hop, child)[i] == [Index(i)];
      assert Pointer([Index(i)]) == "/" + Print(i);
    }
  }

  /** Each collected pointer evaluates to its branch, and no two are the same. */
  lemma {:induction false} CollectedPointers(j: Json, found: seq<Path>)
    requires Lists(found, j)
    ensures forall i :: 0 <= i < |found| ==> Eval(j, Pointer(found[i])) == At(j, found[i]) && At(j, found[i]).Some?
    ensures forall i, k :: 0 <= i < k < |found| ==> Pointer(found[i]) != Pointer(found[k])
  {
    forall i | 0 <= i < |found| ensures Eval(j, Pointer(found[i])) == At(j, found[i]) && At(j, found[i]).Some? {
      assert found[i] in found;
      PointerRoundTrip(j, found[i]);
    }
    forall i, k | 0 <= i < k < |found| ensures Pointer(found[i]) != Pointer(found[k]) {
      assert found[i] in found && found[k] in found;
      PointersDiffer(j, found[i], found[k]);
    }
  }

  lemma {:induction false} AllSeen(found: seq<Path>, j: Json, seen: set<Hop>)
    requires ListsPart(found, j, seen) && forall hop :: Child(j, hop).Some? ==> hop in seen
    ensures Lists(found, j)
  {
    forall path | IsBranch(j, path) ensures path in found {
      assert Child(j, path[0]).Some?;
    }
  }

  lemma {:induction false} NoBranchInLeaf(j: Json)
    requires !j.Obj? && !j.Arr?
    ensures Lists([], j)
  {
    AllSeen([], j, {});
  }

  /** The vector the recursive walk pushes to. */
  class BranchList {
    var out: seq<string>

    constructor ()
      ensures out == []
    {
      out := [];
    }

    /** Adds the pointer of every branch below `value`, each once, in no particular order. */
    method Collect(value: Json, pointer: string) returns (ghost found: seq<Path>)
      modifies this
      ensures Lists(found, value)
      ensures out == old(out) + Pointers(pointer, found)
      decreases value, 2
    {
      match value {
        case Obj(fields) => found := CollectMembers(value, pointer);
        case Arr(items) => found := CollectItems(value, pointer);
        case _ =>
          found := [];
          NoBranchInLeaf(value);
      }
    }

    method CollectMembers(value: Json, pointer: string) returns (ghost found: seq<Path>)
      requires value.Obj?
      modifies this
      ensures Lists(found, value)
      ensures out == old(out) + Pointers(pointer, found)
      decreases value, 1
    {
      var keys := value.fields.Keys;
      found := [];
      ghost var seen: set<Hop> := {};
      while keys != {}
        invariant keys <= value.fields.Keys
        invariant forall hop :: hop in seen <==> hop.Key? && hop.name in value.fields && hop.name !in keys
        invariant ListsPart(found, value, seen)
        invariant out == old(out) + Pointers(pointer, found)
      {
        var key :| key in keys;
        ghost var inner := CollectMember(value, key, pointer);
        ghost var more := Prefixed(Key(key), Listed(Key(key), value.fields[key]) + inner);
        ListsOneMore(found, value, seen, Key(key), inner);
        PushedBoth(old(out), pointer, found, more);
        found, seen := found + more, seen + {Key(key)};
        keys := keys - {key};
      }
      AllSeen(found, value, seen);
    }

    method CollectMember(value: Json, key: string, pointer: string) returns (ghost inner: seq<Path>)
      requires value.Obj? && key in value.fields
      modifies this
      ensures Lists(inner, value.fields[key])
      ensures out == old(out) + Pointers(pointer, Prefixed(Key(key), Listed(Key(key), value.fields[key]) + inner))
      decreases value, 0
    {
      var child, childPointer := value.fields[key], pointer + "/" + Escape(key);
      ghost var listed := Listed(Key(key), child);
      if IsUnionKey(key) && child.Arr? {
        PointersListed(childPointer, Key(key), child);
        out := out + seq(|child.items|, i requires 0 <= i < |child.items| => childPointer + "/" + Print(i));
      }
      inner := Collect(child, childPointer);
      PushedBoth(old(out), childPointer, listed, inner);
      PointersBelow(pointer, Key(key), listed + inner);
    }

    method CollectItems(value: Json, pointer: string) returns (ghost found: seq<Path>)
      requires value.Arr?
      modifies this
      ensures Lists(found, value)
      ensures out == old(out) + Pointers(pointer, found)
      decreases value, 1
    {
      found := [];
      ghost var seen: set<Hop> := {};
      for i := 0 to |value.items|
        invariant forall hop :: hop in seen <==> hop.Index? && hop.i < i
        invariant ListsPart(found, value, seen)
        invariant out == old(out) + Pointers(pointer, found)
      {
        ghost var inner := Collect(value.items[i], pointer + "/" + Print(i));
        ListsOneMore(found, value, seen, Index(i), inner);
        assert Listed(Index(i), value.items[i]) + inner == inner;
        PointersBelow(pointer, Index(i), inner);
        PushedBoth(old(out), pointer, found, Prefixed(Index(i), inner));
        found, seen := found + Prefixed(Index(i), inner), seen + {Index(i)};
      }
      AllSeen(found, value, seen);
    }
  }
}
