/**
 The SQL policy checker: a recursive walk over the parser's JSON tree that carries a map of
 local function names along and parses text function bodies again.

 Go visits the entries of a map in an order of its own choosing, a new one each time. The
 choice is a parameter here: a schedule gives an order for every visit, and the results
 hold for all schedules.
 */
module Policy {
  import opened Wrappers

  datatype Json =
    | JNull
    | JBool(b: bool)
    | JNumber
    | JString(s: string)
    | JArray(items: seq<Json>)
    | JObject(fields: map<string, Json>)

  /** One step of the way to a node: a field, an element, or into a text body. */
  datatype Turn = Key(key: string) | Item(index: nat) | Body

  type Path = seq<Turn>

  /** For every visit, the order in which the entries of that map are visited. */
  type Schedule = (Path, set<string>) -> seq<string>

  /** An order visits every entry once. */
  predicate Lists(order: seq<string>, keys: set<string>) {
    && (forall i | 0 <= i < |order| :: order[i] in keys)
    && (forall k <- keys :: k in order)
    && (forall i, j | 0 <= i < j < |order| :: order[i] != order[j])
  }

  ghost predicate Fair(order: Schedule) {
    forall path, keys :: Lists(order(path, keys), keys)
  }

  /** The allowlists, the islet's schema, how deep text bodies may nest (MAX_DEPTH in the
      source), and the parser, which is any function from text to a finite tree or an error. */
  datatype Rules = Rules(
    schema: string,
    statements: set<string>,
    objects: set<string>,
    alterations: set<string>,
    builtins: set<string>,
    limit: nat,
    parser: string -> Option<map<string, Json>>)

  datatype Checker = Checker(rules: Rules, order: Schedule)

  datatype Violation =
    | TooDeep | ParseError | StatementCount
    | Statement | ObjectKind | Alteration | Persistence | IndexOption | Hook | Tablespace
    | FunctionName | FunctionNamespace | FunctionUnknown
    | NotLocal | CatalogName | NoBody | Language

  type Local = map<string, bool>

  /** The nesting that `parse` allows. */
  const MAX_DEPTH: nat := 16

  // ------------------------------------------------------------------ reading the tree

  /** A failed type assertion to an object leaves a nil map, which has no entries. */
  function Fields(v: Json): map<string, Json> {
    if v.JObject? then v.fields else map[]
  }

  function Items(v: Json): seq<Json> {
    if v.JArray? then v.items else []
  }

  function Get(m: map<string, Json>, key: string): Json {
    if key in m then m[key] else JNull
  }

  function Str(v: Json): string {
    if v.JString? then v.s else ""
  }

  function StringNode(v: Json): string {
    Str(Get(Fields(Get(Fields(v), "String")), "sval"))
  }

  function Names(v: Json): (names: seq<string>) {
    seq(|Items(v)|, i requires 0 <= i < |Items(v)| => StringNode(Items(v)[i]))
  }

  predicate EndsWith(s: string, suffix: string) {
    |s| >= |suffix| && s[|s| - |suffix|..] == suffix
  }

  // --------------------------------------------------------------------------- checks

  /** The test on a key that looks like a statement. */
  predicate StatementAllowed(c: Rules, key: string) {
    |key| > 0 && 'A' <= key[0] <= 'Z' && EndsWith(key, "Stmt") ==> key in c.statements
  }

  /** The temporary and unlogged persistence marks. */
  predicate Unlogged(v: Json) {
    v == JString("t") || v == JString("u")
  }

  /** Every check on one field that does not look at function names. */
  function CheckField(c: Rules, key: string, value: Json): Option<Violation> {
    var node := Fields(value);
    if !StatementAllowed(c, key) then Some(Statement)
    else if key == "DropStmt" && Str(Get(node, "removeType")) !in c.objects then Some(ObjectKind)
    else if key == "RenameStmt" && Str(Get(node, "renameType")) !in c.objects then Some(ObjectKind)
    else if key == "CommentStmt" && Str(Get(node, "objtype")) !in c.objects then Some(ObjectKind)
    else if key == "AlterTableStmt" && Str(Get(node, "objtype")) !in c.objects then Some(ObjectKind)
    else if key == "AlterTableCmd" && Str(Get(node, "subtype")) !in c.alterations then Some(Alteration)
    else if key == "RangeVar" && Unlogged(Get(node, "relpersistence")) then Some(Persistence)
    else if key == "IndexStmt" && (Get(node, "concurrent") == JBool(true) || Str(Get(node, "tableSpace")) != "") then
      Some(IndexOption)
    else if key == "DefElem" && (Str(Get(node, "defname")) == "set" || Str(Get(node, "defname")) == "support") then
      Some(Hook)
    else if key == "relpersistence" && Unlogged(value) then Some(Persistence)
    else if key == "tablespacename" && Str(value) != "" then Some(Tablespace)
    else None
  }

  /** The function name a field makes the checker look up, if any. */
  function CallIn(key: string, value: Json): Option<seq<string>> {
    if key == "FuncCall" || key == "CreateTrigStmt" then Some(Names(Get(Fields(value), "funcname")))
    else if key == "funcname" then Some(Names(value))
    else None
  }

  function Namespace(parts: seq<string>): string {
    if |parts| == 2 then parts[0] else ""
  }

  /** `function`: a name resolves to a local function or to the allowlist. */
  function CheckCall(c: Rules, local: Local, parts: seq<string>): Option<Violation> {
    if |parts| == 0 || |parts| > 2 then Some(FunctionName)
    else
      var name := parts[|parts| - 1];
      var namespace := Namespace(parts);
      if namespace != "" && namespace != "pg_catalog" && namespace != c.schema then Some(FunctionNamespace)
      else if namespace != "pg_catalog" && name in local && local[name] then None
      else if namespace != c.schema && name in c.builtins then None
      else Some(FunctionUnknown)
  }

  /** The options of a function definition, read in order: a later LANGUAGE or AS replaces
      an earlier one. */
  function Options(opts: seq<Json>, lang: string, body: string): Result<(string, string), Violation> {
    if opts == [] then Ok((lang, body))
    else
      var d := Fields(Get(Fields(opts[0]), "DefElem"));
      var name := Str(Get(d, "defname"));
      if name == "language" then Options(opts[1..], StringNode(Get(d, "arg")), body)
      else if name == "as" then
        var items := Items(Get(Fields(Get(Fields(Get(d, "arg")), "List")), "items"));
        if |items| != 1 then Err(NoBody) else Options(opts[1..], lang, StringNode(items[0]))
      else if name == "set" || name == "support" then Err(Hook)
      else Options(opts[1..], lang, body)
  }

  /** What a definition defines: its name, and its text body, which may be empty. */
  datatype Definition = Definition(name: string, body: string)

  /** The part of `definition` that neither reads nor writes the local names. */
  function Define(c: Rules, node: map<string, Json>): Result<Definition, Violation> {
    var parts := Names(Get(node, "funcname"));
    if |parts| == 0 || |parts| > 2 || (|parts| == 2 && parts[0] != c.schema) then Err(NotLocal)
    else
      var (lang, body) :- Options(Items(Get(node, "options")), "", "");
      if lang != "sql" then Err(Language)
      else if body == "" && Get(node, "sql_body") == JNull then Err(NoBody)
      else Ok(Definition(parts[|parts| - 1], body))
  }

  // ------------------------------------------------------------------------- the walk

  /** A child of a node, as the walk comes to it. */
  datatype Child = Element(index: nat, value: Json) | Field(key: string, value: Json)

  function TurnOf(child: Child): Turn {
    match child
    case Element(i, _) => Item(i)
    case Field(key, _) => Key(key)
  }

  predicate ChildOf(child: Child, v: Json) {
    match child
    case Element(i, x) => v.JArray? && i < |v.items| && v.items[i] == x
    case Field(key, x) => v.JObject? && key in v.fields && v.fields[key] == x
  }

  function Elements(v: Json): (kids: seq<Child>)
    requires v.JArray?
    ensures forall kid <- kids :: ChildOf(kid, v)
  {
    seq(|v.items|, i requires 0 <= i < |v.items| => Element(i, v.items[i]))
  }

  /** The entries of an object, in a given order. */
  function Entries(v: Json, order: seq<string>): (kids: seq<Child>)
    requires v.JObject?
    ensures forall kid <- kids :: ChildOf(kid, v)
  {
    if order == [] then []
    else if order[0] in v.fields then [Field(order[0], v.fields[order[0]])] + Entries(v, order[1..])
    else Entries(v, order[1..])
  }

  /** The children of a node in the order in which this visit takes them. */
  function Children(c: Checker, v: Json, path: Path): (kids: seq<Child>)
    ensures forall kid <- kids :: ChildOf(kid, v)
  {
    match v
    case JArray(_) => Elements(v)
    case JObject(fields) => Entries(v, c.order(path, fields.Keys))
    case _ => []
  }

  /** `walk`. On success, the local names as they are afterwards. */
  function Walk(c: Checker, v: Json, depth: nat, path: Path, local: Local): Result<Local, Violation>
    requires depth <= c.rules.limit
    decreases c.rules.limit + 1 - depth, 0, v, 1, 0
  {
    WalkAll(c, v, Children(c, v, path), depth, path, local)
  }

  function WalkAll(c: Checker, v: Json, kids: seq<Child>, depth: nat, path: Path, local: Local)
    : Result<Local, Violation>
    requires depth <= c.rules.limit && forall kid <- kids :: ChildOf(kid, v)
    decreases c.rules.limit + 1 - depth, 0, v, 0, |kids|
  {
    if kids == [] then Ok(local)
    else
      var local1 :- Visit(c, v, kids[0], depth, path, local);
      WalkAll(c, v, kids[1..], depth, path, local1)
  }

  /** One turn of either loop of `walk`: the checks, and then the child itself. */
  function Visit(c: Checker, ghost v: Json, kid: Child, depth: nat, path: Path, local: Local): Result<Local, Violation>
    requires depth <= c.rules.limit && ChildOf(kid, v)
    decreases c.rules.limit + 1 - depth, 0, kid.value, 2, 0
  {
    var path1 := path + [TurnOf(kid)];
    match kid
    case Element(_, value) => Walk(c, value, depth, path1, local)
    case Field(key, value) =>
      var local1 :- CheckEntry(c, key, value, depth, path1, local);
      Walk(c, value, depth, path1, local1)
  }

  /** What `walk` does with one entry of an object before it walks the value. */
  function CheckEntry(c: Checker, key: string, value: Json, depth: nat, path: Path, local: Local)
    : Result<Local, Violation>
    requires depth <= c.rules.limit
    decreases c.rules.limit + 1 - depth, 0, value, 1, 0
  {
    match CheckField(c.rules, key, value)
    case Some(violation) => Err(violation)
    case None =>
      match if CallIn(key, value).Some? then CheckCall(c.rules, local, CallIn(key, value).value) else None
      case Some(violation) => Err(violation)
      case None =>
        if key == "CreateFunctionStmt" then DefineFunction(c, value, depth, path, local) else Ok(local)
  }

  /** `definition`. The name is permitted before the options are looked at. */
  function DefineFunction(c: Checker, value: Json, depth: nat, path: Path, local: Local): Result<Local, Violation>
    requires depth <= c.rules.limit
    decreases c.rules.limit + 1 - depth, 0, value, 0, 0
  {
    var node := Fields(value);
    var parts := Names(Get(node, "funcname"));
    if |parts| == 0 || |parts| > 2 || (|parts| == 2 && parts[0] != c.rules.schema) then Err(NotLocal)
    else
      var name := parts[|parts| - 1];
      if name in local && !local[name] then Err(CatalogName)
      else
        var local1 := local[name := true];
        var d :- Define(c.rules, node);
        if d.body != "" then Parse(c, d.body, false, depth + 1, path + [Body], local1) else Ok(local1)
  }

  /** `parse`. Only the outermost text must be a single statement. */
  function Parse(c: Checker, sql: string, single: bool, depth: nat, path: Path, local: Local): Result<Local, Violation>
    requires depth <= c.rules.limit + 1
    decreases c.rules.limit + 1 - depth, 1, JNull, 0, 0
  {
    if depth > c.rules.limit then Err(TooDeep)
    else match c.rules.parser(sql)
         case None => Err(ParseError)
         case Some(tree) =>
           var list := Items(Get(tree, "stmts"));
           if |list| == 0 || (single && |list| != 1) then Err(StatementCount)
           else Walk(c, JObject(tree), depth, path, local)
  }

  /** `Check`, which works on a copy of the caller's map. */
  function Check(c: Checker, sql: string, local: Local): Option<Violation> {
    match Parse(c, sql, true, 0, [], local)
    case Ok(_) => None
    case Err(violation) => Some(violation)
  }
}
