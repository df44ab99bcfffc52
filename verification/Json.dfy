/** JSON trees, paths through them, and JSON pointers (RFC 6901). */
module JsonTrees {
  import opened Prelude
  import opened Text

  /** Object members are unordered: nothing here depends on their order. */
  datatype Json =
    | Null
    | Bool(b: bool)
    | Num(n: int)
    | Str(s: string)
    | Arr(items: seq<Json>)
    | Obj(fields: map<string, Json>)

  datatype Hop = Key(name: string) | Index(i: nat)

  type Path = seq<Hop>

  function Member(j: Json, name: string): Option<Json> {
    if j.Obj? && name in j.fields then Some(j.fields[name]) else None
  }

  function Child(j: Json, hop: Hop): Option<Json> {
    match hop
    case Key(name) => Member(j, name)
    case Index(i) => if j.Arr? && i < |j.items| then Some(j.items[i]) else None
  }

  /** The node a path leads to. */
  function At(j: Json, path: Path): Option<Json>
    decreases |path|
  {
    if path == [] then Some(j)
    else var child := Child(j, path[0]); if child.None? then None else At(child.value, path[1..])
  }

  // ----- pointers -----

  function Replace(s: string, c: char, sub: string): string {
    if s == [] then [] else (if s[0] == c then sub else [s[0]]) + Replace(s[1..], c, sub)
  }

  function ReplacePair(s: string, a: char, b: char, sub: char): string {
    if |s| < 2 then s
    else if s[0] == a && s[1] == b then [sub] + ReplacePair(s[2..], a, b, sub)
    else [s[0]] + ReplacePair(s[1..], a, b, sub)
  }

  /** Section 3 of RFC 6901. */
  function Escape(key: string): string {
    Replace(Replace(key, '~', "~0"), '/', "~1")
  }

  /** Section 4 of RFC 6901. */
  function Unescape(token: string): string {
    ReplacePair(ReplacePair(token, '~', '1', '/'), '~', '0', '~')
  }

  function Token(hop: Hop): string {
    if hop.Key? then hop.name else Print(hop.i)
  }

  function Tokens(path: Path): seq<string> {
    if path == [] then [] else [Token(path[0])] + Tokens(path[1..])
  }

  function Written(hop: Hop): string {
    if hop.Key? then Escape(hop.name) else Print(hop.i)
  }

  function Pointer(path: Path): string {
    if path == [] then "" else "/" + Written(path[0]) + Pointer(path[1..])
  }

  function ParsePointer(s: string): Option<seq<string>>
    decreases |s|
  {
    if s == "" then Some([])
    else if s[0] != '/' then None
    else
      var slash := IndexOf(s[1..], '/');
      var end := 1 + if slash.Some? then slash.value else |s| - 1;
      var rest := ParsePointer(s[end..]);
      if rest.None? then None else Some([Unescape(s[1..end])] + rest.value)
  }

  /** An array index: digits, no leading zero, no sign. */
  function ParseIndex(token: string): Option<nat> {
    if token == "" || !AllDigits(token) || (token[0] == '0' && |token| != 1) then None else Some(Value(token))
  }

  function Step(j: Json, token: string): Option<Json> {
    if j.Obj? then Member(j, token)
    else if j.Arr? && ParseIndex(token).Some? then Child(j, Index(ParseIndex(token).value))
    else None
  }

  function Resolve(j: Json, tokens: seq<string>): Option<Json>
    decreases |tokens|
  {
    if tokens == [] then Some(j)
    else var child := Step(j, tokens[0]); if child.None? then None else Resolve(child.value, tokens[1..])
  }

  /** The node a pointer names, if any. */
  function Eval(j: Json, pointer: string): Option<Json> {
    var tokens := ParsePointer(pointer);
    if tokens.None? then None else Resolve(j, tokens.value)
  }

  // ----- escaping round trip -----

  lemma {:induction false} HalfEscaped(key: string)
    ensures ReplacePair(Replace(key, '~', "~0"), '~', '0', '~') == key
  {
    if key != [] {
      HalfEscaped(key[1..]);
      var rest := Replace(key[1..], '~', "~0");
      if key[0] == '~' {
        assert ("~0" + rest)[2..] == rest;
      } else {
        assert ([key[0]] + rest)[1..] == rest;
      }
    }
  }

  lemma {:induction false} SlashEscaped(key: string)
    ensures ReplacePair(Escape(key), '~', '1', '/') == Replace(key, '~', "~0")
  {
    if key != [] {
      SlashEscaped(key[1..]);
      var half, rest := Replace(key[1..], '~', "~0"), Escape(key[1..]);
      if key[0] == '~' {
        assert Replace("~0" + half, '/', "~1") == "~0" + rest by {
          assert ("~0" + half)[1..] == "0" + half && ("0" + half)[1..] == half;
        }
        assert ("~0" + rest)[1..] == "0" + rest && ("0" + rest)[1..] == rest;
      } else {
        assert ([key[0]] + half)[1..] == half;
        if key[0] == '/' {
          assert ("~1" + rest)[2..] == rest;
        } else {
          assert ([key[0]] + rest)[1..] == rest;
        }
      }
    }
  }

  /** Every key, with `~` and `/` in it or not, survives escaping. */
  lemma {:induction false} EscapeRoundTrip(key: string)
    ensures Unescape(Escape(key)) == key
  {
    SlashEscaped(key);
    HalfEscaped(key);
  }

  /** Only `~` and `/` are written otherwise. */
  lemma {:induction false} EscapedOneByOne(c: char, rest: string)
    ensures Escape([c] + rest) == (if c == '~' then "~0" else if c == '/' then "~1" else [c]) + Escape(rest)
  {
    assert ([c] + rest)[1..] == rest;
    var half := Replace(rest, '~', "~0");
    if c == '~' {
      assert Replace("~0" + half, '/', "~1") == "~0" + Replace(half, '/', "~1") by {
        assert ("~0" + half)[1..] == "0" + half && ("0" + half)[1..] == half;
      }
    } else {
      assert ([c] + half)[1..] == half;
    }
  }

  lemma {:induction false} ReplaceRemoves(s: string, c: char, sub: string)
    requires c !in sub
    ensures c !in Replace(s, c, sub)
  {
    if s != [] {
      ReplaceRemoves(s[1..], c, sub);
    }
  }

  lemma {:induction false} NothingToUnescape(s: string, b: char, sub: char)
    requires '~' !in s
    ensures ReplacePair(s, '~', b, sub) == s
  {
    if |s| >= 2 {
      NothingToUnescape(s[1..], b, sub);
    }
  }

  lemma {:induction false} WrittenUnescapes(hop: Hop)
    ensures '/' !in Written(hop) && Unescape(Written(hop)) == Token(hop)
  {
    if hop.Key? {
      EscapeRoundTrip(hop.name);
      ReplaceRemoves(Replace(hop.name, '~', "~0"), '/', "~1");
    } else {
      NothingToUnescape(Print(hop.i), '1', '/');
      NothingToUnescape(Print(hop.i), '0', '~');
    }
  }

  lemma {:induction false} FirstToken(w: string, rest: string)
    requires '/' !in w && (rest == "" || rest[0] == '/') && ParsePointer(rest).Some?
    ensures ParsePointer("/" + w + rest) == Some([Unescape(w)] + ParsePointer(rest).value)
  {
    Slices(w, rest);
    SlashAfter(w, rest);
  }

  lemma {:induction false} Slices(w: string, rest: string)
    ensures var s := "/" + w + rest;
            s[0] == '/' && s[1..] == w + rest && s[1..1 + |w|] == w && s[1 + |w|..] == rest
  {
  }

  lemma {:induction false} SlashAfter(w: string, rest: string)
    requires '/' !in w && (rest == "" || rest[0] == '/')
    ensures IndexOf(w + rest, '/') == if rest == "" then None else Some(|w|)
  {
    if rest == "" {
      assert w + rest == w;
      NoIndex(w, '/');
    } else {
      assert w + rest == w + ['/'] + rest[1..];
      IndexOfAfter(w, '/', rest[1..]);
    }
  }

  /** Parsing a printed pointer gives back its tokens. */
  lemma {:induction false} PointerParses(path: Path)
    ensures ParsePointer(Pointer(path)) == Some(Tokens(path))
    decreases |path|
  {
    if path != [] {
      PointerParses(path[1..]);
      WrittenUnescapes(path[0]);
      FirstToken(Written(path[0]), Pointer(path[1..]));
    }
  }

  lemma {:induction false} NoIndex(s: string, c: char)
    requires c !in s
    ensures IndexOf(s, c).None?
  {
    if s != [] {
      NoIndex(s[1..], c);
    }
  }

  lemma {:induction false} IndexParses(i: nat)
    ensures ParseIndex(Print(i)) == Some(i)
  {
    PrintedValue(i);
  }

  /** Each index is written in one way only. */
  lemma {:induction false} IndexPrints(token: string)
    requires ParseIndex(token).Some?
    ensures Print(ParseIndex(token).value) == token
  {
    ValuePrints(token);
  }

  lemma {:induction false} TokensResolve(j: Json, path: Path)
    requires At(j, path).Some?
    ensures Resolve(j, Tokens(path)) == At(j, path)
    decreases |path|
  {
    if path != [] {
      if path[0].Index? {
        IndexParses(path[0].i);
      }
      TokensResolve(Child(j, path[0]).value, path[1..]);
      assert Tokens(path)[1..] == Tokens(path[1..]);
    }
  }

  /** A printed pointer evaluates to exactly the node its path leads to. */
  lemma {:induction false} PointerRoundTrip(j: Json, path: Path)
    requires At(j, path).Some?
    ensures Eval(j, Pointer(path)) == At(j, path)
  {
    PointerParses(path);
    TokensResolve(j, path);
  }

  /** Different nodes of one tree are printed differently. */
  lemma {:induction false} PointersDiffer(j: Json, p: Path, q: Path)
    requires At(j, p).Some? && At(j, q).Some? && p != q
    ensures Pointer(p) != Pointer(q)
  {
    PointerParses(p);
    PointerParses(q);
    TokensDiffer(j, p, q);
  }

  lemma {:induction false} TokensDiffer(j: Json, p: Path, q: Path)
    requires At(j, p).Some? && At(j, q).Some? && p != q
    ensures Tokens(p) != Tokens(q)
    decreases |p|
  {
    if p != [] && q != [] && Token(p[0]) == Token(q[0]) {
      if p[0].Index? {
        IndexParses(p[0].i);
        IndexParses(q[0].i);
      }
      assert p[1..] != q[1..] by {
        assert p == [p[0]] + p[1..] && q == [q[0]] + q[1..];
      }
      TokensDiffer(Child(j, p[0]).value, p[1..], q[1..]);
      assert Tokens(p)[1..] == Tokens(p[1..]) && Tokens(q)[1..] == Tokens(q[1..]);
    } else if p != [] && q != [] {
      assert Tokens(p)[0] != Tokens(q)[0];
    }
  }
}
