/**
 Small trees as the parser builds them, how the checker walks them, and what that comes to for a
 call under a qualified name.
 */
module PolicyTrees {
  import opened Wrappers
  import opened Policy
  import opened PolicyMeaning
  import opened PolicySoundness
  import opened PolicySchedules

  function Text(s: string): Json {
    JObject(map["String" := JObject(map["sval" := JString(s)])])
  }

  function One(key: string, value: Json): Json {
    JObject(map[key := value])
  }

  lemma NameReads(s: string)
    ensures StringNode(Text(s)) == s
    ensures Names(JArray([Text(s)])) == [s]
  {
  }

  /** A field the checker has nothing to say about. */
  predicate IsPlain(key: string) {
    && !NamesStatement(key)
    && key !in {"AlterTableCmd", "RangeVar", "relpersistence", "tablespacename", "DefElem", "FuncCall", "funcname"}
  }

  lemma PlainKeys()
    ensures IsPlain("sval") && IsPlain("String") && IsPlain("names") && IsPlain("name") && IsPlain("argType")
    ensures IsPlain("defexpr") && IsPlain("defname") && IsPlain("arg") && IsPlain("FunctionParameter")
    ensures IsPlain("parameters") && IsPlain("returnType") && IsPlain("options") && IsPlain("sql_body")
    ensures IsPlain("returnval") && IsPlain("A_Const") && IsPlain("ival") && IsPlain("List") && IsPlain("items")
    ensures IsPlain("stmt") && IsPlain("stmts") && IsPlain("mode") && IsPlain("funcformat") && IsPlain("defaction")
    ensures IsPlain("targetList") && IsPlain("ResTarget") && IsPlain("val")
  {
  }

  lemma PlainAllowed(c: Rules, names: set<string>, key: string, value: Json)
    requires IsPlain(key)
    ensures NodeAllowed(c, names, Node(key, value, 0))
  {
    assert key !in {"DropStmt", "RenameStmt", "CommentStmt", "AlterTableStmt", "IndexStmt", "CreateTrigStmt",
                    "CreateFunctionStmt"} by {
      assert NamesStatement("DropStmt") && NamesStatement("RenameStmt") && NamesStatement("CommentStmt");
      assert NamesStatement("AlterTableStmt") && NamesStatement("IndexStmt") && NamesStatement("CreateTrigStmt");
      assert NamesStatement("CreateFunctionStmt");
    }
    hide Names, CallAllowed, DefinitionAllowed, NamesStatement;
  }

  // ------------------------------------------------------------------ the walk, step by step

  lemma WalkObject(c: Checker, v: Json, path: Path, local: Local)
    requires v.JObject?
    ensures Walk(c, v, 0, path, local) == WalkAll(c, v, Entries(v, c.order(path, v.fields.Keys)), 0, path, local)
  {
    hide WalkAll, Entries;
  }

  lemma WalkOne(c: Checker, key: string, value: Json, path: Path, local: Local)
    requires Fair(c.order) && IsPlain(key)
    ensures Walk(c, One(key, value), 0, path, local) == Walk(c, value, 0, path + [Key(key)], local)
  {
    PlainEntry(c, key, value, path + [Key(key)], local);
    OneKid(c, key, value, path, local, local);
  }

  lemma PlainEntry(c: Checker, key: string, value: Json, path: Path, local: Local)
    requires IsPlain(key)
    ensures CheckEntry(c, key, value, 0, path, local) == Ok(local)
  {
    PlainAllowed(c.rules, {}, key, value);
    FieldExact(c.rules, key, value);
    CallsExact(c.rules, local, key, value);
    assert key !in {"CreateTrigStmt", "CreateFunctionStmt"} by {
      assert NamesStatement("CreateTrigStmt") && NamesStatement("CreateFunctionStmt");
    }
    hide CheckField, FieldAllowed, CallIn, DefineFunction, NamesStatement;
  }

  /** The walk of an object of one entry that passes its own checks. */
  lemma OneKid(c: Checker, key: string, value: Json, path: Path, local: Local, local1: Local)
    requires Fair(c.order)
    requires CheckEntry(c, key, value, 0, path + [Key(key)], local) == Ok(local1)
    ensures Walk(c, One(key, value), 0, path, local) == Walk(c, value, 0, path + [Key(key)], local1)
  {
    hide CheckEntry, Entries, WalkAll;
    var v := One(key, value);
    OneEntry(c.order, key, value, path);
    WalkObject(c, v, path, local);
    AllOfOne(c, v, Field(key, value), path, local);
  }

  lemma OneEntry(order: Schedule, key: string, value: Json, path: Path)
    requires Fair(order)
    ensures Entries(One(key, value), order(path, One(key, value).fields.Keys)) == [Field(key, value)]
  {
    var v := One(key, value);
    var list := order(path, v.fields.Keys);
    assert v.fields.Keys == {key} && Lists(list, {key});
    ListLength(list, {key});
    assert list == [key] && list[1..] == [];
    hide Lists, Fair;
    assert Entries(v, list[1..]) == [];
  }

  lemma AllOfOne(c: Checker, v: Json, kid: Child, path: Path, local: Local)
    requires ChildOf(kid, v)
    ensures WalkAll(c, v, [kid], 0, path, local) == Visit(c, v, kid, 0, path, local)
  {
    hide Visit;
  }

  lemma WalkItem(c: Checker, item: Json, path: Path, local: Local)
    ensures Walk(c, JArray([item]), 0, path, local) == Walk(c, item, 0, path + [Item(0)], local)
  {
    assert Children(c, JArray([item]), path) == [Element(0, item)];
    AllOfOne(c, JArray([item]), Element(0, item), path, local);
  }

  // ------------------------------------------------------------------------- qualified names

  /** The nodes of a name: one String node for each part. */
  function Spelled(parts: seq<string>): Json {
    JArray(seq(|parts|, i requires 0 <= i < |parts| => Text(parts[i])))
  }

  /** `SELECT f()` with a plain or a qualified name. */
  function SelectCall(parts: seq<string>): map<string, Json> {
    map["stmts" := JArray([One("stmt", One("SelectStmt",
      One("targetList", JArray([One("ResTarget", One("val", One("FuncCall", One("funcname", Spelled(parts)))))]))))])]
  }

  lemma SpelledReads(parts: seq<string>)
    ensures Names(Spelled(parts)) == parts
  {
    assert Spells(Spelled(parts), parts);
    NamesExact(Spelled(parts), parts);
  }

  lemma {:induction false} WalkAllSame(c: Checker, v: Json, kids: seq<Child>, path: Path, local: Local)
    requires forall kid <- kids :: ChildOf(kid, v) && Visit(c, v, kid, 0, path, local) == Ok(local)
    ensures WalkAll(c, v, kids, 0, path, local) == Ok(local)
    decreases |kids|
  {
    hide Visit;
    if kids != [] {
      assert kids[0] in kids && forall kid <- kids[1..] :: kid in kids;
      WalkAllSame(c, v, kids[1..], path, local);
    }
  }

  lemma WalkText(c: Checker, s: string, path: Path, local: Local)
    requires Fair(c.order)
    ensures Walk(c, Text(s), 0, path, local) == Ok(local)
  {
    PlainKeys();
    var leaf := JString(s);
    assert Walk(c, leaf, 0, path + [Key("String")] + [Key("sval")], local) == Ok(local);
    hide Walk, IsPlain, Fair;
    assert Text(s) == One("String", One("sval", leaf));
    WalkOne(c, "String", One("sval", leaf), path, local);
    WalkOne(c, "sval", leaf, path + [Key("String")], local);
  }

  lemma WalkSpelled(c: Checker, parts: seq<string>, path: Path, local: Local)
    requires Fair(c.order)
    ensures Walk(c, Spelled(parts), 0, path, local) == Ok(local)
  {
    var v := Spelled(parts);
    var kids := Children(c, v, path);
    hide Fair, Text;
    forall kid <- kids ensures ChildOf(kid, v) && Visit(c, v, kid, 0, path, local) == Ok(local) {
      var i :| 0 <= i < |kids| && kids[i] == kid;
      assert kid == Element(i, Text(parts[i]));
      WalkText(c, parts[i], path + [Item(i)], local);
    }
    WalkAllSame(c, v, kids, path, local);
  }

  lemma CallEntry(c: Checker, key: string, value: Json, parts: seq<string>, path: Path, local: Local)
    requires (key == "FuncCall" && value == One("funcname", Spelled(parts)))
             || (key == "funcname" && value == Spelled(parts))
    ensures CheckEntry(c, key, value, 0, path, local).Ok? <==> CallAllowed(c.rules, Permitted(local), parts)
    ensures CheckEntry(c, key, value, 0, path, local).Ok? ==> CheckEntry(c, key, value, 0, path, local) == Ok(local)
  {
    SpelledReads(parts);
    assert CallIn(key, value) == Some(parts);
    CallExact(c.rules, local, parts);
    CallField(c.rules, key, value);
    hide CheckCall, CallAllowed, Spelled, CheckField, CallIn;
  }

  lemma CallField(c: Rules, key: string, value: Json)
    requires key == "FuncCall" || key == "funcname"
    ensures CheckField(c, key, value) == None
  {
  }

  /** The walk of an object of one entry, whether or not that passes. */
  lemma OneEntryDecides(c: Checker, key: string, value: Json, path: Path, local: Local)
    requires Fair(c.order)
    ensures CheckEntry(c, key, value, 0, path + [Key(key)], local).Err? ==>
            Walk(c, One(key, value), 0, path, local).Err?
  {
    hide CheckEntry, Entries, WalkAll;
    OneEntry(c.order, key, value, path);
    WalkObject(c, One(key, value), path, local);
    AllOfOne(c, One(key, value), Field(key, value), path, local);
  }

  lemma WalkCall(c: Checker, parts: seq<string>, path: Path, local: Local)
    requires Fair(c.order)
    ensures Walk(c, One("FuncCall", One("funcname", Spelled(parts))), 0, path, local).Ok? <==>
            CallAllowed(c.rules, Permitted(local), parts)
  {
    hide Walk, CheckEntry, CallAllowed, Spelled, Fair;
    var call := One("funcname", Spelled(parts));
    var path1 := path + [Key("FuncCall")];
    CallEntry(c, "FuncCall", call, parts, path1, local);
    CallEntry(c, "funcname", Spelled(parts), parts, path1 + [Key("funcname")], local);
    hide One;
    if CallAllowed(c.rules, Permitted(local), parts) {
      OneKid(c, "FuncCall", call, path, local, local);
      OneKid(c, "funcname", Spelled(parts), path1, local, local);
      WalkSpelled(c, parts, path1 + [Key("funcname")], local);
    } else {
      OneEntryDecides(c, "FuncCall", call, path, local);
    }
  }

  lemma SelectEntry(c: Checker, value: Json, path: Path, local: Local)
    requires "SelectStmt" in c.rules.statements
    ensures CheckEntry(c, "SelectStmt", value, 0, path, local) == Ok(local)
  {
    assert CheckField(c.rules, "SelectStmt", value) == None;
    hide CheckField;
  }

  /** The whole statement is accepted exactly if the call is, for a name of any parts. */
  lemma SelectExact(c: Checker, sql: string, parts: seq<string>, local: Local)
    requires Fair(c.order) && "SelectStmt" in c.rules.statements && c.rules.parser(sql) == Some(SelectCall(parts))
    ensures Check(c, sql, local) == None <==> CallAllowed(c.rules, Permitted(local), parts)
  {
    var call := One("FuncCall", One("funcname", Spelled(parts)));
    var target := One("ResTarget", One("val", call));
    var select := One("targetList", JArray([target]));
    var stmt := One("stmt", One("SelectStmt", select));
    assert JObject(SelectCall(parts)) == One("stmts", JArray([stmt]));
    assert |Items(Get(SelectCall(parts), "stmts"))| == 1;
    hide SelectCall, One, Spelled, Walk, IsPlain, Fair, CallAllowed, CheckEntry;
    PlainKeys();
    var top: Path := [];
    var p1 := top + [Key("stmts")];
    var p2 := p1 + [Item(0)] + [Key("stmt")];
    var p3 := p2 + [Key("SelectStmt")];
    var p4 := p3 + [Key("targetList")];
    var p5 := p4 + [Item(0)] + [Key("ResTarget")];
    WalkOne(c, "stmts", JArray([stmt]), top, local);
    WalkItem(c, stmt, p1, local);
    WalkOne(c, "stmt", One("SelectStmt", select), p1 + [Item(0)], local);
    SelectEntry(c, select, p3, local);
    OneKid(c, "SelectStmt", select, p2, local, local);
    WalkOne(c, "targetList", JArray([target]), p3, local);
    WalkItem(c, target, p4, local);
    WalkOne(c, "ResTarget", One("val", call), p4 + [Item(0)], local);
    WalkOne(c, "val", call, p5, local);
    WalkCall(c, parts, p5 + [Key("val")], local);
  }

  /** `SELECT q.f()`: under pg_catalog exactly the functions of the allowlist, under the islet's
      schema exactly the permitted local ones, under any other name none. */
  lemma QualifiedCallsExact(c: Checker, sql: string, q: string, f: string, local: Local)
    requires Fair(c.order) && "SelectStmt" in c.rules.statements && c.rules.parser(sql) == Some(SelectCall([q, f]))
    requires c.rules.schema != "pg_catalog" && c.rules.schema != "" && q != ""
    ensures Check(c, sql, local) == None <==>
            || (q == "pg_catalog" && f in c.rules.builtins)
            || (q == c.rules.schema && f in local && local[f])
  {
    SelectExact(c, sql, [q, f], local);
    hide Check, SelectCall;
  }
}
