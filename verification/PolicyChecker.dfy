/**
 The checker in the source's own form. The map of local names is one object that every copy
 of the checker shares and `definition` writes; the depth is a parameter, private to each
 copy. Each method computes what the function of the same purpose in Policy says.
 */
module PolicyChecker {
  import opened Wrappers
  import opened Policy

  /** A Go map from function names to permissions. */
  class LocalNames {
    var entries: Local

    constructor (entries: Local)
      ensures this.entries == entries
    {
      this.entries := entries;
    }
  }

  /** An error agrees with the specification, and without one the shared map does. */
  predicate Agrees(err: Option<Violation>, entries: Local, r: Result<Local, Violation>) {
    match err
    case None => r == Ok(entries)
    case Some(violation) => r == Err(violation)
  }

  method WalkTree(c: Checker, names: LocalNames, v: Json, depth: nat, path: Path) returns (err: Option<Violation>)
    requires depth <= c.rules.limit
    modifies names
    ensures Agrees(err, names.entries, Walk(c, v, depth, path, old(names.entries)))
    decreases c.rules.limit + 1 - depth, 0, v, 1, 0
  {
    var kids := Children(c, v, path);
    var i := 0;
    while i < |kids|
      invariant 0 <= i <= |kids|
      invariant WalkAll(c, v, kids[i..], depth, path, names.entries) == Walk(c, v, depth, path, old(names.entries))
    {
      assert kids[i..][1..] == kids[i + 1..] && kids[i] in kids;
      err := VisitChild(c, names, v, kids[i], depth, path);
      if err.Some? {
        return;
      }
      i := i + 1;
    }
    err := None;
  }

  method VisitChild(c: Checker, names: LocalNames, ghost v: Json, kid: Child, depth: nat, path: Path)
    returns (err: Option<Violation>)
    requires depth <= c.rules.limit && ChildOf(kid, v)
    modifies names
    ensures Agrees(err, names.entries, Visit(c, v, kid, depth, path, old(names.entries)))
    decreases c.rules.limit + 1 - depth, 0, kid.value, 2, 0
  {
    var path1 := path + [TurnOf(kid)];
    if kid.Field? {
      err := CheckField(c.rules, kid.key, kid.value);
      if err.Some? {
        return;
      }
      var call := CallIn(kid.key, kid.value);
      if call.Some? {
        err := CheckCall(c.rules, names.entries, call.value);
        if err.Some? {
          return;
        }
      }
      if kid.key == "CreateFunctionStmt" {
        err := DefineInto(c, names, kid.value, depth, path1);
        if err.Some? {
          return;
        }
      }
    }
    err := WalkTree(c, names, kid.value, depth, path1);
  }

  method DefineInto(c: Checker, names: LocalNames, value: Json, depth: nat, path: Path) returns (err: Option<Violation>)
    requires depth <= c.rules.limit
    modifies names
    ensures Agrees(err, names.entries, DefineFunction(c, value, depth, path, old(names.entries)))
    decreases c.rules.limit + 1 - depth, 0, value, 0, 0
  {
    var node := Fields(value);
    var parts := Names(Get(node, "funcname"));
    if |parts| == 0 || |parts| > 2 || (|parts| == 2 && parts[0] != c.rules.schema) {
      return Some(NotLocal);
    }
    var name := parts[|parts| - 1];
    if name in names.entries && !names.entries[name] {
      return Some(CatalogName);
    }
    names.entries := names.entries[name := true];
    var lang, body := "", "";
    err, lang, body := ReadOptions(Items(Get(node, "options")));
    if err.Some? {
      return;
    }
    if lang != "sql" {
      return Some(Language);
    }
    if body != "" {
      err := ParseInto(c, names, body, false, depth + 1, path + [Body]);
      return;
    }
    if Get(node, "sql_body") == JNull {
      return Some(NoBody);
    }
    err := None;
  }

  /** The loop over the options: the last LANGUAGE and the last AS count. */
  method ReadOptions(opts: seq<Json>) returns (err: Option<Violation>, lang: string, body: string)
    ensures match err
            case None => Options(opts, "", "") == Ok((lang, body))
            case Some(violation) => Options(opts, "", "") == Err(violation)
  {
    lang, body := "", "";
    var i := 0;
    while i < |opts|
      invariant 0 <= i <= |opts|
      invariant Options(opts[i..], lang, body) == Options(opts, "", "")
    {
      assert opts[i..][1..] == opts[i + 1..];
      var d := Fields(Get(Fields(opts[i]), "DefElem"));
      var name := Str(Get(d, "defname"));
      if name == "language" {
        lang := StringNode(Get(d, "arg"));
      } else if name == "as" {
        var items := Items(Get(Fields(Get(Fields(Get(d, "arg")), "List")), "items"));
        if |items| != 1 {
          return Some(NoBody), lang, body;
        }
        body := StringNode(items[0]);
      } else if name == "set" || name == "support" {
        return Some(Hook), lang, body;
      }
      i := i + 1;
    }
    err := None;
  }

  method ParseInto(c: Checker, names: LocalNames, sql: string, single: bool, depth: nat, path: Path)
    returns (err: Option<Violation>)
    requires depth <= c.rules.limit + 1
    modifies names
    ensures Agrees(err, names.entries, Parse(c, sql, single, depth, path, old(names.entries)))
    decreases c.rules.limit + 1 - depth, 1, JNull, 0, 0
  {
    if depth > c.rules.limit {
      return Some(TooDeep);
    }
    var parsed := c.rules.parser(sql);
    if parsed.None? {
      return Some(ParseError);
    }
    var list := Items(Get(parsed.value, "stmts"));
    if |list| == 0 || (single && |list| != 1) {
      return Some(StatementCount);
    }
    err := WalkTree(c, names, JObject(parsed.value), depth, path);
  }

  /** `Check` copies the caller's map, and leaves it alone. */
  method CheckStatement(c: Checker, sql: string, callers: LocalNames) returns (err: Option<Violation>)
    ensures err == Check(c, sql, callers.entries)
    ensures callers.entries == old(callers.entries)
  {
    var copy := new LocalNames(callers.entries);
    err := ParseInto(c, copy, sql, true, 0, []);
  }
}
