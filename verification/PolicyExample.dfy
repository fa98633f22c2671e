/**
 A statement whose acceptance depends on the order of visiting. The default of a parameter calls
 a function that the SQL body beside it defines: the parser takes that, for only a later stage
 of the server refuses a definition inside BEGIN ATOMIC. Not in the tree are the numbers that
 the checker walks past: positions and lengths in the text, type modifiers, and the parser's
 version.
 */
module PolicyExample {
  import opened Wrappers
  import opened Policy
  import opened PolicyMeaning
  import opened PolicySoundness
  import opened PolicyOrder
  import opened PolicySchedules
  import opened PolicyTrees

  const SQL :=
    "CREATE FUNCTION f(n int DEFAULT g()) RETURNS int LANGUAGE sql BEGIN ATOMIC " +
    "CREATE FUNCTION g() RETURNS int LANGUAGE sql RETURN 1; END"

  function ListNode(item: Json): Json {
    One("List", One("items", JArray([item])))
  }

  const INT := One("names", JArray([Text("pg_catalog"), Text("int4")]))
  const OPTION := JObject(map[
    "defname" := JString("language"), "arg" := Text("sql"), "defaction" := JString("DEFELEM_UNSPEC")])
  const OPTIONS := JArray([One("DefElem", OPTION)])
  const CALL := JObject(map["funcname" := JArray([Text("g")]), "funcformat" := JString("COERCE_EXPLICIT_CALL")])
  const PARAMETER := JObject(map[
    "name" := JString("n"), "argType" := INT, "mode" := JString("FUNC_PARAM_DEFAULT"),
    "defexpr" := One("FuncCall", CALL)])
  const PARAMETERS := JArray([One("FunctionParameter", PARAMETER)])
  const VALUE := One("returnval", One("A_Const", One("ival", One("ival", JNumber))))
  const RETURN := One("ReturnStmt", VALUE)
  const INNER := JObject(map[
    "funcname" := JArray([Text("g")]), "returnType" := INT, "options" := OPTIONS,
    "sql_body" := RETURN])
  const BODY := ListNode(ListNode(One("CreateFunctionStmt", INNER)))
  const OUTER := JObject(map[
    "funcname" := JArray([Text("f")]), "parameters" := PARAMETERS, "returnType" := INT, "options" := OPTIONS,
    "sql_body" := BODY])
  const TREE := map["stmts" := JArray([One("stmt", One("CreateFunctionStmt", OUTER))])]

  const RULES := Rules("islet", {"CreateFunctionStmt", "ReturnStmt"}, {}, {}, {}, MAX_DEPTH,
                       (sql: string) => if sql == SQL then Some(TREE) else None)

  /** Where the fields of the outer definition are visited. */
  const AT: Path := [Key("stmts"), Item(0), Key("stmt"), Key("CreateFunctionStmt")]

  // ------------------------------------------------------------ the nodes, level by level

  /** All allowed, and no definition among them. */
  ghost predicate Quiet(names: set<string>, nodes: set<Node>) {
    AllAllowed(RULES, names, nodes) && DefinitionFree(nodes)
  }

  lemma QuietObject(names: set<string>, fields: map<string, Json>)
    requires forall k <- fields :: Quiet(names, FieldNodes(RULES, k, fields[k], 0))
    ensures Quiet(names, Nodes(RULES, JObject(fields), 0))
  {
    hide NodeAllowed, FieldNodes;
  }

  lemma QuietField(names: set<string>, key: string, value: Json)
    requires key != "CreateFunctionStmt" && NodeAllowed(RULES, names, Node(key, value, 0))
    requires Quiet(names, Nodes(RULES, value, 0))
    ensures Quiet(names, FieldNodes(RULES, key, value, 0))
  {
    hide NodeAllowed;
  }

  lemma QuietPlain(names: set<string>, key: string, value: Json)
    requires IsPlain(key) && Quiet(names, Nodes(RULES, value, 0))
    ensures Quiet(names, FieldNodes(RULES, key, value, 0))
  {
    PlainAllowed(RULES, names, key, value);
    hide NodeAllowed, AllAllowed;
    QuietField(names, key, value);
  }

  lemma QuietOne(names: set<string>, key: string, value: Json)
    requires Quiet(names, FieldNodes(RULES, key, value, 0))
    ensures Quiet(names, Nodes(RULES, One(key, value), 0))
  {
    hide Quiet, FieldNodes;
    QuietObject(names, map[key := value]);
  }

  lemma QuietPlainOne(names: set<string>, key: string, value: Json)
    requires IsPlain(key) && Quiet(names, Nodes(RULES, value, 0))
    ensures Quiet(names, Nodes(RULES, One(key, value), 0))
  {
    hide Quiet;
    QuietPlain(names, key, value);
    QuietOne(names, key, value);
  }

  lemma QuietLeaf(names: set<string>, v: Json)
    requires !v.JArray? && !v.JObject?
    ensures Quiet(names, Nodes(RULES, v, 0))
  {
  }

  lemma QuietItem(names: set<string>, item: Json)
    requires Quiet(names, Nodes(RULES, item, 0))
    ensures Quiet(names, Nodes(RULES, JArray([item]), 0))
  {
    hide Quiet;
    var v := JArray([item]);
    assert v.items[0] == item;
    assert Nodes(RULES, v, 0) == Nodes(RULES, item, 0);
  }

  lemma QuietPair(names: set<string>, first: Json, second: Json)
    requires Quiet(names, Nodes(RULES, first, 0)) && Quiet(names, Nodes(RULES, second, 0))
    ensures Quiet(names, Nodes(RULES, JArray([first, second]), 0))
  {
    hide Nodes, AllAllowed, RULES;
    PairNodes(first, second);
    AllAllowedUnion(RULES, names, Nodes(RULES, first, 0), Nodes(RULES, second, 0));
  }

  lemma PairNodes(first: Json, second: Json)
    ensures Nodes(RULES, JArray([first, second]), 0) == Nodes(RULES, first, 0) + Nodes(RULES, second, 0)
  {
    var v := JArray([first, second]);
    assert v.items[0] == first && v.items[1] == second;
  }

  lemma QuietText(names: set<string>, s: string)
    ensures Quiet(names, Nodes(RULES, Text(s), 0))
  {
    PlainKeys();
    hide IsPlain, Quiet;
    QuietLeaf(names, JString(s));
    QuietPlainOne(names, "sval", JString(s));
    QuietPlainOne(names, "String", One("sval", JString(s)));
  }

  lemma QuietTexts(names: set<string>, s: string)
    ensures Quiet(names, Nodes(RULES, JArray([Text(s)]), 0))
  {
    QuietText(names, s);
    hide Quiet, Text;
    QuietItem(names, Text(s));
  }

  lemma QuietName(names: set<string>, s: string)
    requires s in names
    ensures Quiet(names, FieldNodes(RULES, "funcname", JArray([Text(s)]), 0))
  {
    NameReads(s);
    assert NodeAllowed(RULES, names, Node("funcname", JArray([Text(s)]), 0)) by {
      hide Names, StringNode;
    }
    hide Quiet, NodeAllowed;
    QuietTexts(names, s);
    QuietField(names, "funcname", JArray([Text(s)]));
  }

  lemma QuietType(names: set<string>)
    ensures Quiet(names, Nodes(RULES, INT, 0))
  {
    PlainKeys();
    hide IsPlain, Quiet;
    QuietText(names, "pg_catalog");
    QuietText(names, "int4");
    QuietPair(names, Text("pg_catalog"), Text("int4"));
    hide Text;
    QuietPlainOne(names, "names", JArray([Text("pg_catalog"), Text("int4")]));
  }

  lemma OptionAllowed(names: set<string>)
    ensures NodeAllowed(RULES, names, Node("DefElem", OPTION, 0))
  {
    assert Str(Get(Fields(OPTION), "defname")) == "language";
    hide OPTION, CallAllowed, Names, DefinitionAllowed;
  }

  lemma QuietOptions(names: set<string>)
    ensures Quiet(names, Nodes(RULES, OPTIONS, 0))
  {
    PlainKeys();
    OptionAllowed(names);
    hide IsPlain, Quiet, NodeAllowed, One, Text;
    QuietLeaf(names, JString("language"));
    QuietPlain(names, "defname", JString("language"));
    QuietLeaf(names, JString("DEFELEM_UNSPEC"));
    QuietPlain(names, "defaction", JString("DEFELEM_UNSPEC"));
    QuietText(names, "sql");
    QuietPlain(names, "arg", Text("sql"));
    QuietObject(names, OPTION.fields);
    QuietField(names, "DefElem", OPTION);
    QuietOne(names, "DefElem", OPTION);
    hide OPTION;
    QuietItem(names, One("DefElem", OPTION));
  }

  lemma CallAllowedWith(names: set<string>)
    requires "g" in names
    ensures NodeAllowed(RULES, names, Node("FuncCall", CALL, 0))
  {
    NameReads("g");
    hide Names, StringNode, Text, FieldAllowed, DefinitionAllowed;
    assert Get(Fields(CALL), "funcname") == JArray([Text("g")]);
    CallFieldAllowed();
  }

  lemma CallFieldAllowed()
    ensures FieldAllowed(RULES, "FuncCall", CALL)
  {
    hide CALL;
  }

  lemma QuietCall(names: set<string>)
    requires "g" in names
    ensures Quiet(names, FieldNodes(RULES, "FuncCall", CALL, 0))
  {
    hide IsPlain, Text, RULES, Quiet, NodeAllowed;
    PlainKeys();
    CallAllowedWith(names);
    QuietName(names, "g");
    QuietLeaf(names, JString("COERCE_EXPLICIT_CALL"));
    QuietPlain(names, "funcformat", JString("COERCE_EXPLICIT_CALL"));
    QuietObject(names, CALL.fields);
    hide CALL;
    QuietField(names, "FuncCall", CALL);
  }

  /** The parameters are all right once `g` is permitted. */
  lemma QuietParameters(names: set<string>)
    requires "g" in names
    ensures Quiet(names, Nodes(RULES, PARAMETERS, 0))
  {
    PlainKeys();
    hide IsPlain, Quiet, INT, CALL, One, RULES;
    QuietCall(names);
    QuietOne(names, "FuncCall", CALL);
    QuietPlain(names, "defexpr", One("FuncCall", CALL));
    QuietType(names);
    QuietPlain(names, "argType", INT);
    QuietLeaf(names, JString("n"));
    QuietPlain(names, "name", JString("n"));
    QuietLeaf(names, JString("FUNC_PARAM_DEFAULT"));
    QuietPlain(names, "mode", JString("FUNC_PARAM_DEFAULT"));
    QuietObject(names, PARAMETER.fields);
    QuietPlainOne(names, "FunctionParameter", PARAMETER);
    QuietItem(names, One("FunctionParameter", PARAMETER));
  }

  lemma QuietInner(names: set<string>)
    requires "g" in names
    ensures Quiet(names, Nodes(RULES, INNER, 0))
  {
    PlainKeys();
    QuietReturn(names);
    hide IsPlain, Quiet, INT, OPTIONS, RETURN, Text, RULES;
    QuietPlain(names, "sql_body", RETURN);
    QuietType(names);
    QuietPlain(names, "returnType", INT);
    QuietOptions(names);
    QuietPlain(names, "options", OPTIONS);
    QuietName(names, "g");
    QuietObject(names, INNER.fields);
  }

  lemma ReturnAllowed(names: set<string>)
    ensures NodeAllowed(RULES, names, Node("ReturnStmt", VALUE, 0))
  {
    hide VALUE, Names, CallAllowed, DefinitionAllowed;
  }

  lemma QuietReturn(names: set<string>)
    ensures Quiet(names, Nodes(RULES, RETURN, 0))
  {
    PlainKeys();
    ReturnAllowed(names);
    hide IsPlain, Quiet, NodeAllowed, One, RULES;
    QuietLeaf(names, JNumber);
    QuietPlainOne(names, "ival", JNumber);
    QuietPlainOne(names, "ival", One("ival", JNumber));
    QuietPlainOne(names, "A_Const", One("ival", One("ival", JNumber)));
    QuietPlainOne(names, "returnval", One("A_Const", One("ival", One("ival", JNumber))));
    QuietField(names, "ReturnStmt", VALUE);
    QuietOne(names, "ReturnStmt", VALUE);
  }

  /** The fields of the outer definition apart from its body. */
  lemma QuietOuter(names: set<string>, k: string)
    requires "f" in names && k in OUTER.fields && k != "sql_body" && (k == "parameters" ==> "g" in names)
    ensures Quiet(names, FieldNodes(RULES, k, OUTER.fields[k], 0))
  {
    PlainKeys();
    hide IsPlain, Quiet, INT, OPTIONS, PARAMETERS, BODY, Text, RULES;
    if k == "parameters" {
      QuietParameters(names);
      QuietPlain(names, k, PARAMETERS);
    } else if k == "funcname" {
      QuietName(names, "f");
    } else if k == "returnType" {
      QuietType(names);
      QuietPlain(names, k, INT);
    } else {
      QuietOptions(names);
      QuietPlain(names, k, OPTIONS);
    }
  }

  // ------------------------------------------------------------------ the walk, step by step

  /** Both definitions, to the checker. */
  lemma DefinitionReads(value: Json, name: string)
    requires value.JObject? && {"funcname", "options", "sql_body"} <= value.fields.Keys
    requires value.fields["funcname"] == JArray([Text(name)]) && value.fields["options"] == OPTIONS
    requires value.fields["sql_body"] != JNull
    ensures DefinitionLegal(RULES, value) && TextOf(value) == "" && NameOf(value) == name
  {
    NameReads(name);
    hide Names, OPTIONS;
    OptionsRead();
    hide OptionsLegal, LanguageOr, TextOr;
  }

  lemma OptionsRead()
    ensures var opts := Items(OPTIONS); OptionsLegal(opts) && LanguageOr(opts, "") == "sql" && TextOr(opts, "") == ""
  {
    NameReads("sql");
    var option := One("DefElem", OPTION);
    assert OptionFields(option) == OPTION.fields by {
      hide OPTION;
    }
    assert OPTION.fields["defname"] == JString("language") && OPTION.fields["arg"] == Text("sql");
    hide OPTION, Text, StringNode, OptionFields, One;
    assert Items(OPTIONS) == [option] && [option][..0] == [];
    assert IsOption(option, "language");
    assert LastOption([option], "language") == Some(OptionFields(option));
    assert LastOption([option][..0], "as") == None;
    assert LastOption([option], "as") == None;
  }

  lemma DefinitionEntry(c: Checker, value: Json, name: string, path: Path, local: Local)
    requires c.rules == RULES && (name in local ==> local[name])
    requires DefinitionLegal(RULES, value) && TextOf(value) == "" && NameOf(value) == name
    ensures CheckEntry(c, "CreateFunctionStmt", value, 0, path, local) == Ok(local[name := true])
  {
    hide DefinitionLegal, TextOf, NameOf, DefineFunction, Walk, CheckCall, CheckField;
    DefineExact(c, value, 0, path, local);
    DefinitionField(value);
  }

  lemma DefinitionField(value: Json)
    ensures CheckField(RULES, "CreateFunctionStmt", value) == None
  {
  }

  lemma WalkDefinition(c: Checker, value: Json, name: string, path: Path, local: Local)
    requires c.rules == RULES && Fair(c.order) && (name in local ==> local[name])
    requires DefinitionLegal(RULES, value) && TextOf(value) == "" && NameOf(value) == name
    ensures Walk(c, One("CreateFunctionStmt", value), 0, path, local)
         == Walk(c, value, 0, path + [Key("CreateFunctionStmt")], local[name := true])
  {
    DefinitionEntry(c, value, name, path + [Key("CreateFunctionStmt")], local);
    hide DefinitionLegal, TextOf, NameOf, Walk, One, CheckEntry;
    OneKid(c, "CreateFunctionStmt", value, path, local, local[name := true]);
  }

  predicate AllTrue(local: Local) {
    forall n <- local :: local[n]
  }

  /** Quiet nodes are accepted and change no names. */
  lemma QuietWalk(c: Checker, v: Json, path: Path, local: Local)
    requires c.rules == RULES && Fair(c.order) && AllTrue(local) && Quiet(local.Keys, Nodes(RULES, v, 0))
    ensures Walk(c, v, 0, path, local) == Ok(local)
  {
    assert Permitted(local) == local.Keys;
    NoneDefined(Nodes(RULES, v, 0));
    hide Walk, Nodes, AllAllowed, Fair;
    assert Grow(local, {}) == local;
    WalkComplete(c, v, 0, path, local);
    WalkSound(c, v, 0, path, local);
  }

  lemma QuietVisit(c: Checker, v: Json, kid: Child, path: Path, local: Local)
    requires c.rules == RULES && Fair(c.order) && AllTrue(local) && ChildOf(kid, v)
    requires Quiet(local.Keys, KidNodes(RULES, kid, 0))
    ensures Visit(c, v, kid, 0, path, local) == Ok(local)
  {
    assert Permitted(local) == local.Keys;
    NoneDefined(KidNodes(RULES, kid, 0));
    hide Visit, KidNodes, AllAllowed, Fair;
    assert Grow(local, {}) == local;
    VisitComplete(c, v, kid, 0, path, local);
    VisitSound(c, v, kid, 0, path, local);
  }

  /** The body of the outer definition defines `g`. */
  lemma WalkBody(c: Checker, path: Path, local: Local)
    requires c.rules == RULES && Fair(c.order) && AllTrue(local)
    ensures Walk(c, BODY, 0, path, local) == Ok(local["g" := true])
  {
    hide INNER, ListNode, InList, Quiet, One, Walk, Fair, Nodes, DefinitionLegal, TextOf, NameOf, RULES;
    var local1 := local["g" := true];
    var definition := One("CreateFunctionStmt", INNER);
    DefinitionReads(INNER, "g") by { InnerFields(); }
    QuietInner(local1.Keys);
    WalkList(c, ListNode(definition), path, local);
    WalkList(c, definition, InList(path), local);
    WalkDefinition(c, INNER, "g", InList(InList(path)), local);
    QuietWalk(c, INNER, InList(InList(path)) + [Key("CreateFunctionStmt")], local1);
  }

  lemma InnerFields()
    ensures INNER.JObject? && {"funcname", "options", "sql_body"} <= INNER.fields.Keys
    ensures INNER.fields["funcname"] == JArray([Text("g")]) && INNER.fields["options"] == OPTIONS
    ensures INNER.fields["sql_body"] == RETURN && RETURN != JNull
  {
    hide INT, Text, OPTIONS, VALUE;
  }

  function InList(path: Path): Path {
    path + [Key("List")] + [Key("items")] + [Item(0)]
  }

  lemma WalkList(c: Checker, item: Json, path: Path, local: Local)
    requires c.rules == RULES && Fair(c.order)
    ensures Walk(c, ListNode(item), 0, path, local) == Walk(c, item, 0, InList(path), local)
  {
    PlainKeys();
    hide IsPlain, One, Walk, Fair, RULES;
    WalkOne(c, "List", One("items", JArray([item])), path, local);
    WalkOne(c, "items", JArray([item]), path + [Key("List")], local);
    WalkItem(c, item, path + [Key("List")] + [Key("items")], local);
  }

  // -------------------------------------------------------------------------- the decision

  /** Of the two fields that matter, the body comes first. */
  predicate BodyFirst(order: seq<string>) {
    order == [] || order[0] == "sql_body" || (order[0] != "parameters" && BodyFirst(order[1..]))
  }

  /** The parameters are refused while `g` is not permitted. */
  lemma ParametersNeedG(c: Checker, path: Path, local: Local)
    requires c.rules == RULES && Fair(c.order) && AllTrue(local) && "g" !in local
    ensures Visit(c, OUTER, Field("parameters", PARAMETERS), 0, path, local).Err?
  {
    hide NodeAllowed, FieldNodes, Quiet, INT, CALL, OPTIONS, BODY, Text, PARAMETERS, Fair, AllTrue, Visit;
    QuietOuter({"f", "g"}, "parameters");
    CallIsThere();
    NeedsG(local.Keys);
    Refused(c, "parameters", PARAMETERS, path, local, {"f", "g"}, Node("FuncCall", CALL, 0));
  }

  /** What holds a node that is not allowed, and defines nothing, is refused. */
  lemma Refused(c: Checker, key: string, value: Json, path: Path, local: Local, names: set<string>, n: Node)
    requires c.rules == RULES && Fair(c.order) && AllTrue(local) && ChildOf(Field(key, value), OUTER)
    requires Quiet(names, FieldNodes(RULES, key, value, 0)) && n in FieldNodes(RULES, key, value, 0)
    requires !NodeAllowed(RULES, local.Keys, n)
    ensures Visit(c, OUTER, Field(key, value), 0, path, local).Err?
  {
    hide Visit, FieldNodes, Fair, NodeAllowed, OUTER, RULES;
    var kid := Field(key, value);
    assert Permitted(local) == local.Keys;
    NoneDefined(KidNodes(RULES, kid, 0));
    assert Grow(local, {}) == local;
    VisitSound(c, OUTER, kid, 0, path, local);
  }

  lemma CallIsThere()
    ensures Node("FuncCall", CALL, 0) in FieldNodes(RULES, "parameters", PARAMETERS, 0)
  {
    var call := Node("FuncCall", CALL, 0);
    hide CALL, INT, Nodes, BodyNodes;
    assert call in FieldNodes(RULES, "FuncCall", CALL, 0);
    hide FieldNodes;
    NodeInOne("FuncCall", CALL, call);
    NodeInField("defexpr", One("FuncCall", CALL), call);
    NodeInObject("defexpr", PARAMETER, call);
    NodeInField("FunctionParameter", PARAMETER, call);
    NodeInOne("FunctionParameter", PARAMETER, call);
    hide PARAMETER, One;
    NodeInItem(One("FunctionParameter", PARAMETER), call);
    NodeInField("parameters", PARAMETERS, call);
  }

  lemma NodeInField(key: string, value: Json, n: Node)
    requires n in Nodes(RULES, value, 0)
    ensures n in FieldNodes(RULES, key, value, 0)
  {
  }

  lemma NodeInObject(key: string, v: Json, n: Node)
    requires v.JObject? && key in v.fields && n in FieldNodes(RULES, key, v.fields[key], 0)
    ensures n in Nodes(RULES, v, 0)
  {
    hide FieldNodes;
  }

  lemma NodeInOne(key: string, value: Json, n: Node)
    requires n in FieldNodes(RULES, key, value, 0)
    ensures n in Nodes(RULES, One(key, value), 0)
  {
    hide FieldNodes, Nodes;
    NodeInObject(key, One(key, value), n);
  }

  lemma NodeInItem(item: Json, n: Node)
    requires n in Nodes(RULES, item, 0)
    ensures n in Nodes(RULES, JArray([item]), 0)
  {
    assert JArray([item]).items[0] == item;
  }

  lemma NeedsG(names: set<string>)
    requires "g" !in names
    ensures !NodeAllowed(RULES, names, Node("FuncCall", CALL, 0))
  {
    NameReads("g");
    hide Names, FieldAllowed, DefinitionAllowed;
  }

  /** The fields of the outer definition, in any order. */
  lemma {:induction false} OuterDecides(c: Checker, list: seq<string>, path: Path, local: Local)
    requires c.rules == RULES && Fair(c.order) && AllTrue(local) && "f" in local
    requires forall k <- list :: k in OUTER.fields
    ensures WalkAll(c, OUTER, Entries(OUTER, list), 0, path, local).Ok? <==> "g" in local || BodyFirst(list)
    decreases |list|
  {
    if list != [] {
      var k := list[0];
      assert k in OUTER.fields;
      var kid := Field(k, OUTER.fields[k]);
      assert Entries(OUTER, list) == [kid] + Entries(OUTER, list[1..]);
      if k == "sql_body" {
        VisitBody(c, path, local);
        hide OUTER, Visit;
        OuterDecides(c, list[1..], path, local["g" := true]);
      } else if k == "parameters" && "g" !in local {
        ParametersNeedG(c, path, local);
      } else {
        QuietOuter(local.Keys, k);
        QuietVisit(c, OUTER, kid, path, local);
        hide OUTER, Visit;
        OuterDecides(c, list[1..], path, local);
      }
    }
  }

  lemma VisitBody(c: Checker, path: Path, local: Local)
    requires c.rules == RULES && Fair(c.order) && AllTrue(local)
    ensures Visit(c, OUTER, Field("sql_body", BODY), 0, path, local) == Ok(local["g" := true])
  {
    PlainKeys();
    hide IsPlain, BODY, Walk, CheckEntry, Fair;
    PlainEntry(c, "sql_body", BODY, path + [Key("sql_body")], local);
    WalkBody(c, path + [Key("sql_body")], local);
  }

  /** The statement is accepted exactly under the schedules that come to the body of the outer
      definition before its parameters. */
  lemma DecidedByOrder(c: Checker)
    requires c.rules == RULES && Fair(c.order)
    ensures Check(c, SQL, map[]) == None <==> BodyFirst(c.order(AT, OUTER.fields.Keys))
  {
    var order := c.order(AT, OUTER.fields.Keys);
    assert Lists(order, OUTER.fields.Keys);
    hide OUTER, Walk, WalkAll, Lists, Fair, TREE;
    WalkTree(c);
    OuterDecides(c, order, AT, map["f" := true]);
    WalkObject(c, OUTER, AT, map["f" := true]);
    assert RULES.parser(SQL) == Some(TREE) && |Items(Get(TREE, "stmts"))| == 1 by {
      OneStatement();
    }
  }

  lemma OneStatement()
    ensures |Items(Get(TREE, "stmts"))| == 1
  {
    hide OUTER, One;
  }

  lemma OuterFields()
    ensures OUTER.JObject? && {"funcname", "options", "sql_body"} <= OUTER.fields.Keys
    ensures OUTER.fields["funcname"] == JArray([Text("f")]) && OUTER.fields["options"] == OPTIONS
    ensures OUTER.fields["sql_body"] == BODY && BODY != JNull
    ensures JObject(TREE) == One("stmts", JArray([One("stmt", One("CreateFunctionStmt", OUTER))]))
  {
    hide INT, PARAMETERS, Text, OPTIONS;
  }

  /** From the root down to the fields of the outer definition. */
  lemma WalkTree(c: Checker)
    requires c.rules == RULES && Fair(c.order)
    ensures Walk(c, JObject(TREE), 0, [], map[]) == Walk(c, OUTER, 0, AT, map["f" := true])
  {
    hide OUTER, IsPlain, Walk, Fair, DefinitionLegal, TextOf, NameOf, One, TREE, RULES;
    PlainKeys();
    DefinitionReads(OUTER, "f") by { OuterFields(); }
    var definition := One("CreateFunctionStmt", OUTER);
    var list := JArray([One("stmt", definition)]);
    assert JObject(TREE) == One("stmts", list) by { OuterFields(); }
    var top: Path := [];
    var p1 := top + [Key("stmts")];
    var p2 := p1 + [Item(0)];
    var p3 := p2 + [Key("stmt")];
    assert p3 + [Key("CreateFunctionStmt")] == AT;
    hide AT;
    WalkOne(c, "stmts", list, top, map[]);
    WalkItem(c, One("stmt", definition), p1, map[]);
    WalkOne(c, "stmt", definition, p2, map[]);
    WalkDefinition(c, OUTER, "f", p3, map[]);
  }

  /** Two checks of this one text, with one map of names, that disagree. */
  lemma OrderCanDecide() returns (order: Schedule, order': Schedule)
    ensures Fair(order) && Fair(order')
    ensures Check(Checker(RULES, order), SQL, map[]) == None
    ensures Check(Checker(RULES, order'), SQL, map[]) != None
  {
    var keys := OUTER.fields.Keys;
    var rest := ListOf(keys - {"sql_body"});
    var rest' := ListOf(keys - {"parameters"});
    ListsFront("sql_body", rest, keys);
    ListsFront("parameters", rest', keys);
    order := OrderAt(AnyOrder(), AT, ["sql_body"] + rest);
    order' := OrderAt(AnyOrder(), AT, ["parameters"] + rest');
    hide Check, OUTER, Fair, Lists;
    DecidedByOrder(Checker(RULES, order));
    DecidedByOrder(Checker(RULES, order'));
  }
}
