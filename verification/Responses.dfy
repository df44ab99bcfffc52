/** The response tables of an API description and what they say about each status: build_support/normalize.rs. */
module Responses {
  import opened Prelude
  import opened Text
  import opened JsonTrees

  type Table = map<string, Json>

  const METHODS: seq<string> := ["get", "put", "post", "delete", "patch", "head", "options", "trace"]

  predicate IsSuccess(code: string) {
    code != "" && code[0] == '2'
  }

  function Successes(table: Table): set<string> {
    set code | code in table && IsSuccess(code)
  }

  /** What `table` says about a status: its own entry, its range's entry, or the default. */
  function Answer(table: Table, status: nat): Option<Json> {
    var code, range := Print(status), Range(status);
    if code in table then Some(table[code])
    else if range in table then Some(table[range])
    else if "default" in table then Some(table["default"])
    else None
  }

  function Range(status: nat): string {
    [Print(status)[0]] + "XX"
  }

  // ----- the rewrite -----

  function WithoutSurplus(table: Table): Table {
    if |Successes(table)| > 1 then map code | code in table && (IsSuccess(code) ==> code == "200") :: table[code]
    else table
  }

  /** `default` becomes the error ranges that are not declared. */
  function Spread(table: Table): Table
    requires "default" in table
  {
    map code | code in table.Keys + {"4XX", "5XX"} && code != "default" ::
      if code in table then table[code] else table["default"]
  }

  function Rewritten(table: Table): Table {
    if Successes(table) == {} || "default" !in table then WithoutSurplus(table) else Spread(WithoutSurplus(table))
  }

  function NewOperation(op: Json): Json {
    var responses := Member(op, "responses");
    if responses.Some? && responses.value.Obj? then
      Obj(op.fields["responses" := Obj(Rewritten(responses.value.fields))])
    else op
  }

  function NewItem(item: Json, methods: seq<string>): Json {
    if item.Obj? then
      Obj(map key | key in item.fields :: if key in methods then NewOperation(item.fields[key]) else item.fields[key])
    else item
  }

  function NewPaths(paths: map<string, Json>, done: set<string>): map<string, Json> {
    map path | path in paths :: if path in done then NewItem(paths[path], METHODS) else paths[path]
  }

  /** The description with the response table of every operation rewritten. */
  function Normalized(root: Json): Json {
    var paths := Member(root, "paths");
    if paths.Some? && paths.value.Obj? then
      Obj(root.fields["paths" := Obj(NewPaths(paths.value.fields, paths.value.fields.Keys))])
    else root
  }

  // ----- what the rewrite keeps of one table -----

  /** The first digit of a three-digit status tells its class. */
  lemma {:induction false} CodeShape(status: nat)
    requires 100 <= status < 1000
    ensures |Print(status)| == 3 && Print(status)[0] == Digit(status / 100)
    ensures IsSuccess(Print(status)) <==> status / 100 == 2
    ensures IsSuccess(Range(status)) <==> status / 100 == 2
    ensures Print(status) != Range(status) && Print(status) != "default" && Range(status) != "default"
    ensures Print(status) != "4XX" && Print(status) != "5XX"
    ensures Range(status) == "4XX" <==> status / 100 == 4
    ensures Range(status) == "5XX" <==> status / 100 == 5
  {
    assert Print(status) == Print(status / 10) + [Digit(status % 10)];
    assert Print(status / 10) == Print(status / 100) + [Digit(status / 10 % 10)];
    assert Print(status / 100) == [Digit(status / 100)];
    assert IsDigit(Print(status)[1]) && Range(status)[1] == "4XX"[1] == "5XX"[1] == 'X';
    assert Range(status)[0] == Digit(status / 100) && |"default"| == 7;
  }

  lemma {:induction false} PrintIs200(status: nat)
    ensures Print(status) == "200" <==> status == 200
  {
    PrintedValue(status);
    PrintedValue(200);
    assert Print(200) == Print(20) + [Digit(0)] == Print(2) + [Digit(0)] + [Digit(0)] == "200";
  }

  /** The statuses whose answer survives, told from the table as it was. */
  predicate AnswerStands(table: Table, status: nat) {
    || status / 100 == 4 || status / 100 == 5
    || Successes(table) == {}
    || (if status / 100 == 2 && |Successes(table)| > 1 then
          (status == 200 && "200" in table) || Answer(table, status).None?
        else
          Print(status) in table || Range(status) in table || "default" !in table)
  }

  /** Every error status keeps its answer, and every other exactly when it did not rest on what was removed. */
  lemma {:induction false} AnswersExactly(table: Table, status: nat)
    requires 100 <= status < 600
    ensures Answer(Rewritten(table), status) == Answer(table, status) <==> AnswerStands(table, status)
  {
    CodeShape(status);
    PrintIs200(status);
    var code, range, kept := Print(status), Range(status), WithoutSurplus(table);
    assert code in table && IsSuccess(code) ==> code in Successes(table);
    assert range in table && IsSuccess(range) ==> range in Successes(table);
  }

  lemma {:induction false} ErrorsKept(table: Table, status: nat)
    requires 400 <= status < 600
    ensures Answer(Rewritten(table), status) == Answer(table, status)
  {
    AnswersExactly(table, status);
  }

  /** Which entries there are afterwards, and with which response. */
  lemma {:induction false} RewrittenEntries(table: Table, code: string)
    ensures var success, surplus := Successes(table) != {}, |Successes(table)| > 1;
            var spread := success && "default" in table && (code == "4XX" || code == "5XX") && code !in table;
            && (code in Rewritten(table) <==>
                  || spread
                  || (code in table && !(code == "default" && success)
                      && !(IsSuccess(code) && surplus && code != "200")))
            && (code in Rewritten(table) ==> Rewritten(table)[code] == if spread then table["default"] else table[code])
  {
  }

  /** At most one success is left, and none at all when there were several without a plain 200. */
  lemma {:induction false} OneSuccess(table: Table)
    ensures Successes(Rewritten(table)) ==
            if |Successes(table)| > 1 then Successes(table) * {"200"} else Successes(table)
    ensures |Successes(Rewritten(table))| <= 1
  {
    forall code ensures code in Successes(Rewritten(table)) <==>
        code in Successes(table) && (|Successes(table)| > 1 ==> code == "200") {
      RewrittenEntries(table, code);
    }
    var left := Successes(Rewritten(table));
    if |Successes(table)| > 1 {
      assert left == Successes(table) * {"200"};
      assert left == {} || left == {"200"};
    } else {
      assert left == Successes(table);
    }
  }

  lemma {:induction false} RewrittenTwice(table: Table)
    ensures Rewritten(Rewritten(table)) == Rewritten(table)
  {
    OneSuccess(table);
    RewrittenEntries(table, "default");
    if Successes(table) == {} {
      assert Rewritten(table) == table;
    }
  }

  // ----- and of the whole description -----

  /** The members of a path that are operations. */
  predicate IsMethod(name: string) {
    || name == "get" || name == "put" || name == "post" || name == "delete"
    || name == "patch" || name == "head" || name == "options" || name == "trace"
  }

  lemma {:induction false} MethodsAreThese(name: string)
    ensures name in METHODS <==> IsMethod(name)
  {
  }

  function Then(j: Option<Json>, name: string): Option<Json> {
    if j.Some? then Member(j.value, name) else None
  }

  /** The response table of one operation. */
  function TableOf(root: Json, path: string, method': string): Option<Table> {
    var table := Then(Then(Then(Member(root, "paths"), path), method'), "responses");
    if table.Some? && table.value.Obj? then Some(table.value.fields) else None
  }

  /** Each operation has the table it had, rewritten. */
  lemma {:induction false} TablesRewritten(root: Json, path: string, method': string)
    requires IsMethod(method')
    ensures TableOf(Normalized(root), path, method') ==
      (var table := TableOf(root, path, method'); if table.Some? then Some(Rewritten(table.value)) else None)
  {
    MethodsAreThese(method');
    var paths := Member(root, "paths");
    if paths.Some? && paths.value.Obj? {
      assert Member(Normalized(root), "paths") == Some(Obj(NewPaths(paths.value.fields, paths.value.fields.Keys)));
    }
  }

  /** No operation's answer to an error status changes, anywhere in the description. */
  lemma {:induction false} ErrorAnswersKept(root: Json, path: string, method': string, status: nat)
    requires IsMethod(method') && 400 <= status < 600
    ensures var before, after := TableOf(root, path, method'), TableOf(Normalized(root), path, method');
            && before.Some? == after.Some?
            && (before.Some? ==> Answer(after.value, status) == Answer(before.value, status))
  {
    TablesRewritten(root, path, method');
    if TableOf(root, path, method').Some? {
      ErrorsKept(TableOf(root, path, method').value, status);
    }
  }

  /** The node at `path` is a response table, part of one, or around one. */
  predicate NearTable(path: Path) {
    && (|path| > 0 ==> path[0] == Key("paths"))
    && (|path| > 1 ==> path[1].Key?)
    && (|path| > 2 ==> path[2].Key? && IsMethod(path[2].name))
    && (|path| > 3 ==> path[3] == Key("responses"))
  }

  /** Everything away from the response tables is as it was. */
  lemma {:induction false} RestUntouched(root: Json, path: Path)
    requires !NearTable(path)
    ensures At(Normalized(root), path) == At(root, path)
  {
    var new' := Normalized(root);
    if path[0] != Key("paths") {
      assert Child(new', path[0]) == Child(root, path[0]);
    } else if Child(root, path[0]).Some? && Child(root, path[0]).value.Obj? {
      var paths := Child(root, path[0]).value.fields;
      assert Child(new', path[0]).value == Obj(NewPaths(paths, paths.Keys));
      if |path| > 1 && path[1].Key? && path[1].name in paths {
        assert path[1..][0] == path[1] && path[1..][1..] == path[2..];
        ItemUntouched(paths[path[1].name], path[2..]);
      }
    }
  }

  lemma {:induction false} ItemUntouched(item: Json, path: Path)
    requires path != [] && (path[0].Key? && IsMethod(path[0].name) ==> |path| > 1 && path[1] != Key("responses"))
    ensures At(NewItem(item, METHODS), path) == At(item, path)
  {
    if path[0].Key? {
      MethodsAreThese(path[0].name);
    }
    if path[0].Key? && path[0].name in METHODS && Child(item, path[0]).Some? {
      assert path[1..][0] == path[1];
      assert Child(NewOperation(Child(item, path[0]).value), path[1]) == Child(Child(item, path[0]).value, path[1]);
    } else {
      assert Child(NewItem(item, METHODS), path[0]) == Child(item, path[0]);
    }
  }

  lemma {:induction false} NormalizedTwice(root: Json)
    ensures Normalized(Normalized(root)) == Normalized(root)
  {
    var paths := Member(root, "paths");
    if paths.Some? && paths.value.Obj? {
      var once := NewPaths(paths.value.fields, paths.value.fields.Keys);
      forall path | path in once ensures NewItem(once[path], METHODS) == once[path] {
        ItemTwice(paths.value.fields[path]);
      }
      assert NewPaths(once, once.Keys) == once;
      assert root.fields["paths" := Obj(once)]["paths" := Obj(once)] == root.fields["paths" := Obj(once)];
    }
  }

  lemma {:induction false} ItemTwice(item: Json)
    ensures NewItem(NewItem(item, METHODS), METHODS) == NewItem(item, METHODS)
  {
    if item.Obj? {
      var once := NewItem(item, METHODS).fields;
      forall key | key in once && key in METHODS ensures NewOperation(once[key]) == once[key] {
        OperationTwice(item.fields[key]);
      }
      assert NewItem(Obj(once), METHODS).fields == once;
    }
  }

  lemma {:induction false} OperationTwice(op: Json)
    ensures NewOperation(NewOperation(op)) == NewOperation(op)
  {
    var responses := Member(op, "responses");
    if responses.Some? && responses.value.Obj? {
      RewrittenTwice(responses.value.fields);
      var new' := Obj(Rewritten(responses.value.fields));
      assert op.fields["responses" := new']["responses" := new'] == op.fields["responses" := new'];
    }
  }
}
