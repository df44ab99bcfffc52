/** Multi-valued response headers, as the cache reads, strips and merges them. */
module Headers {
  import opened Prelude

  /** Lower-case names, each with its values in order. */
  type HeaderMap = map<string, seq<string>>

  function Get(h: HeaderMap, name: string): Option<string> {
    if name in h && h[name] != [] then Some(h[name][0]) else None
  }

  predicate StartsWith(s: string, prefix: string) {
    |prefix| <= |s| && s[..|prefix|] == prefix
  }

  /** ESI's error- and rate-limit headers, true only when the response was sent. */
  predicate IsBudget(name: string) {
    StartsWith(name, "x-esi-error-limit-") || StartsWith(name, "x-ratelimit-")
  }

  /** The names that describe the stored body. */
  predicate DescribesBody(name: string) {
    name in ["content-length", "content-type", "content-encoding", "content-range", "transfer-encoding"]
  }

  function Stripped(h: HeaderMap): HeaderMap {
    map name | name in h && !IsBudget(name) :: h[name]
  }

  /** A 304's headers laid over the stored ones (section 4.3.4 of RFC 9111). */
  function Merged(stored: HeaderMap, newer: HeaderMap): HeaderMap {
    stored + map name | name in newer && !DescribesBody(name) :: newer[name]
  }

  predicate NoBudget(h: HeaderMap) {
    forall name :: name in h ==> !IsBudget(name)
  }

  lemma {:induction false} BudgetNamesDescribeNoBody(name: string)
    ensures IsBudget(name) ==> !DescribesBody(name)
  {
    if StartsWith(name, "x-esi-error-limit-") {
      assert name[0] == name[..|"x-esi-error-limit-"|][0] == 'x';
    } else if StartsWith(name, "x-ratelimit-") {
      assert name[0] == name[..|"x-ratelimit-"|][0] == 'x';
    }
  }

  /** Header by header: the stored values for what describes the body, the 304's
      where it has any, the stored values otherwise; and budget headers are the
      304's alone. */
  lemma {:induction false} MergeIsPerName(stored: HeaderMap, newer: HeaderMap, name: string)
    requires NoBudget(stored)
    ensures var m := Merged(stored, newer);
            var source := if DescribesBody(name) || name !in newer then stored else newer;
            && (name in m <==> name in source)
            && (name in m ==> m[name] == source[name])
    ensures IsBudget(name) ==> (name in Merged(stored, newer) <==> name in newer)
                               && (name in newer ==> Merged(stored, newer)[name] == newer[name])
  {
    BudgetNamesDescribeNoBody(name);
  }

  method StripBudgetHeaders(h: HeaderMap) returns (stripped: HeaderMap)
    ensures stripped == Stripped(h)
  {
    stripped := h;
    var stale := set name | name in h && IsBudget(name);
    while stale != {}
      invariant stale <= stripped.Keys && (forall name :: name in stripped && IsBudget(name) ==> name in stale)
      invariant forall name :: name in stale ==> IsBudget(name)
      invariant Stripped(stripped) == Stripped(h)
    {
      var name :| name in stale;
      stripped, stale := stripped - {name}, stale - {name};
    }
    assert stripped == Stripped(stripped);
  }

  /** Every name present has a value, as in any header map. */
  predicate Proper(h: HeaderMap) {
    forall name :: name in h ==> h[name] != []
  }

  method AppendAll(h: HeaderMap, name: string, values: seq<string>) returns (r: HeaderMap)
    requires name !in h && values != []
    ensures r == h[name := values]
  {
    var appended := [values[0]];
    for i := 1 to |values|
      invariant appended == values[..i]
    {
      appended := appended + [values[i]];
    }
    assert appended == values;
    r := h[name := appended];
  }

  method MergeHeaders(stored: HeaderMap, newer: HeaderMap) returns (merged: HeaderMap)
    requires Proper(newer)
    ensures merged == Merged(stored, newer)
  {
    merged := stored;
    var names := newer.Keys;
    while names != {}
      invariant names <= newer.Keys
      invariant forall n :: n in merged <==> n in stored || (n in newer && n !in names && !DescribesBody(n))
      invariant forall n :: n in merged ==>
                  merged[n] == if n in newer && n !in names && !DescribesBody(n) then newer[n] else stored[n]
    {
      var name :| name in names;
      names := names - {name};
      if !DescribesBody(name) {
        merged := AppendAll(merged - {name}, name, newer[name]);
      }
    }
  }
}
