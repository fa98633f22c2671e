/** What an accepted statement is known to contain, and what is enough to be accepted, for
    every schedule and every parser. */
module PolicySoundness {
  import opened Wrappers
  import opened Policy
  import opened PolicyMeaning

  /** A field somewhere in the tree of a statement, or in the tree of a text body that its
      function definitions lead to, with the nesting depth of the text it stands in. */
  datatype Node = Node(key: string, value: Json, depth: nat)

  /** All the fields of a tree and of every text body reached from it. */
  ghost function Nodes(c: Rules, v: Json, depth: nat): set<Node>
    requires depth <= c.limit
    decreases c.limit + 1 - depth, v, 1
  {
    match v
    case JArray(items) => set i, n | 0 <= i < |items| && n in Nodes(c, items[i], depth) :: n
    case JObject(fields) => set k, n | k in fields && n in FieldNodes(c, k, fields[k], depth) :: n
    case _ => {}
  }

  ghost function FieldNodes(c: Rules, key: string, value: Json, depth: nat): set<Node>
    requires depth <= c.limit
    decreases c.limit + 1 - depth, value, 2
  {
    {Node(key, value, depth)} + Nodes(c, value, depth) + BodyNodes(c, key, value, depth)
  }

  /** The text body of a definition, if it has one and it can be parsed. */
  function BodyTree(c: Rules, key: string, value: Json): Option<Json> {
    if key != "CreateFunctionStmt" || !DefinitionLegal(c, value) || TextOf(value) == "" then None
    else match c.parser(TextOf(value))
         case None => None
         case Some(tree) => Some(JObject(tree))
  }

  ghost function BodyNodes(c: Rules, key: string, value: Json, depth: nat): set<Node>
    requires depth <= c.limit
    decreases c.limit + 1 - depth, value, 0
  {
    if BodyTree(c, key, value).None? || depth == c.limit then {}
    else Nodes(c, BodyTree(c, key, value).value, depth + 1)
  }

  // --------------------------------------------------------------------- what is allowed

  /** A legal definition whose text body, if it has one, can be parsed, is not empty and is not
      nested too deep. */
  predicate DefinitionAllowed(c: Rules, value: Json, depth: nat) {
    && DefinitionLegal(c, value)
    && (TextOf(value) != "" ==>
          && depth < c.limit
          && c.parser(TextOf(value)).Some?
          && Items(Get(c.parser(TextOf(value)).value, "stmts")) != [])
  }

  /** What the policy promises about one node. */
  predicate NodeAllowed(c: Rules, names: set<string>, n: Node) {
    && FieldAllowed(c, n.key, n.value)
    && CallsAllowed(c, names, n.key, n.value)
    && (n.key == "CreateFunctionStmt" ==> DefinitionAllowed(c, n.value, n.depth))
  }

  /** The functions that a set of nodes defines. */
  ghost function Defined(nodes: set<Node>): set<string> {
    set n | n in nodes && n.key == "CreateFunctionStmt" :: NameOf(n.value)
  }

  /** The local names after some have been defined. */
  function Grow(local: Local, names: set<string>): Local {
    map n | n in local.Keys + names :: n in names || local[n]
  }

  /** No name is defined that the map marks as a catalog routine. */
  predicate NoConflict(local: Local, names: set<string>) {
    forall n <- names :: n in local ==> local[n]
  }

  ghost predicate AllAllowed(c: Rules, names: set<string>, nodes: set<Node>) {
    forall n <- nodes :: NodeAllowed(c, names, n)
  }

  ghost function KidNodes(c: Rules, kid: Child, depth: nat): set<Node>
    requires depth <= c.limit
  {
    match kid
    case Element(_, value) => Nodes(c, value, depth)
    case Field(key, value) => FieldNodes(c, key, value, depth)
  }

  ghost function AllNodes(c: Rules, kids: seq<Child>, depth: nat): set<Node>
    requires depth <= c.limit
  {
    if kids == [] then {} else KidNodes(c, kids[0], depth) + AllNodes(c, kids[1..], depth)
  }

  lemma {:induction false} AllNodesHas(c: Rules, kids: seq<Child>, depth: nat, n: Node)
    requires depth <= c.limit
    ensures n in AllNodes(c, kids, depth) <==> exists kid <- kids :: n in KidNodes(c, kid, depth)
  {
    if kids != [] {
      AllNodesHas(c, kids[1..], depth, n);
      assert kids == [kids[0]] + kids[1..];
    }
  }

  lemma {:induction false} EntriesHas(v: Json, order: seq<string>, kid: Child)
    requires v.JObject?
    ensures kid in Entries(v, order) <==> kid.Field? && kid.key in order && ChildOf(kid, v)
  {
    if order != [] {
      EntriesHas(v, order[1..], kid);
      assert order == [order[0]] + order[1..];
    }
  }

  /** A fair schedule leaves out no child. */
  lemma ChildrenHas(c: Checker, v: Json, path: Path, kid: Child)
    requires Fair(c.order)
    ensures kid in Children(c, v, path) <==> ChildOf(kid, v)
  {
    if v.JObject? {
      assert Lists(c.order(path, v.fields.Keys), v.fields.Keys);
      EntriesHas(v, c.order(path, v.fields.Keys), kid);
    } else if v.JArray? && ChildOf(kid, v) {
      assert Elements(v)[kid.index] == kid;
    }
  }

  /** Whatever the order, the children hold the nodes of the tree. */
  lemma ChildrenNodes(c: Checker, v: Json, depth: nat, path: Path)
    requires Fair(c.order) && depth <= c.rules.limit
    ensures AllNodes(c.rules, Children(c, v, path), depth) == Nodes(c.rules, v, depth)
  {
    var kids := Children(c, v, path);
    forall n ensures n in AllNodes(c.rules, kids, depth) <==> n in Nodes(c.rules, v, depth) {
      AllNodesHas(c.rules, kids, depth, n);
      if n in AllNodes(c.rules, kids, depth) {
        var kid :| kid in kids && n in KidNodes(c.rules, kid, depth);
        ChildrenHas(c, v, path, kid);
      }
      if n in Nodes(c.rules, v, depth) {
        match v
        case JArray(items) =>
          var i :| 0 <= i < |items| && n in Nodes(c.rules, items[i], depth);
          ChildrenHas(c, v, path, Element(i, items[i]));
          assert n in KidNodes(c.rules, Element(i, items[i]), depth);
        case JObject(fields) =>
          var k :| k in fields && n in FieldNodes(c.rules, k, fields[k], depth);
          ChildrenHas(c, v, path, Field(k, fields[k]));
          assert n in KidNodes(c.rules, Field(k, fields[k]), depth);
      }
    }
  }

  // ------------------------------------------------------------------------- soundness

  /** What success means: the local names have grown by exactly the names defined, none of
      them a catalog routine, and every node is allowed under the names there are now. */
  ghost predicate Good(c: Rules, local: Local, r: Result<Local, Violation>, nodes: set<Node>) {
    r.Ok? ==>
      && r.value == Grow(local, Defined(nodes))
      && NoConflict(local, Defined(nodes))
      && AllAllowed(c, Permitted(r.value), nodes)
  }

  lemma GrowTwice(local: Local, a: set<string>, b: set<string>)
    ensures Grow(Grow(local, a), b) == Grow(local, a + b)
    ensures Permitted(Grow(local, a)) == Permitted(local) + a
    ensures NoConflict(local, a) && NoConflict(Grow(local, a), b) ==> NoConflict(local, a + b)
  {
  }

  /** What is allowed stays so when more names are permitted. */
  lemma AllowedMore(c: Rules, names: set<string>, more: set<string>, nodes: set<Node>)
    requires AllAllowed(c, names, nodes) && names <= more
    ensures AllAllowed(c, more, nodes)
  {
    hide FieldAllowed, DefinitionAllowed;
    forall n <- nodes ensures NodeAllowed(c, more, n) {
      assert NodeAllowed(c, names, n);
    }
  }

  lemma AllAllowedUnion(c: Rules, names: set<string>, a: set<Node>, b: set<Node>)
    ensures AllAllowed(c, names, a + b) <==> AllAllowed(c, names, a) && AllAllowed(c, names, b)
  {
    hide NodeAllowed;
    if AllAllowed(c, names, a + b) {
      forall n <- a ensures NodeAllowed(c, names, n) {
        assert n in a + b;
      }
      forall n <- b ensures NodeAllowed(c, names, n) {
        assert n in a + b;
      }
    }
  }

  lemma GoodThenGood(c: Rules, local: Local, local1: Local, r: Result<Local, Violation>, a: set<Node>, b: set<Node>)
    requires Good(c, local, Ok(local1), a) && Good(c, local1, r, b)
    ensures Good(c, local, r, a + b)
  {
    hide AllAllowed, Grow, NoConflict, Permitted;
    assert Defined(a + b) == Defined(a) + Defined(b);
    hide Defined;
    if r.Ok? {
      GrowTwice(local, Defined(a), Defined(b));
      GrowTwice(local1, Defined(b), {});
      AllowedMore(c, Permitted(local1), Permitted(r.value), a);
      AllAllowedUnion(c, Permitted(r.value), a, b);
    }
  }

  lemma GoodNothing(c: Rules, local: Local)
    ensures Good(c, local, Ok(local), {})
  {
    assert Grow(local, {}) == local;
    assert Defined({}) == {};
  }

  lemma {:induction false} WalkSound(c: Checker, v: Json, depth: nat, path: Path, local: Local)
    requires Fair(c.order) && depth <= c.rules.limit
    ensures Good(c.rules, local, Walk(c, v, depth, path, local), Nodes(c.rules, v, depth))
    decreases c.rules.limit + 1 - depth, 0, v, 1, 0
  {
    var kids := Children(c, v, path);
    WalkAllSound(c, v, kids, depth, path, local);
    ChildrenNodes(c, v, depth, path);
  }

  lemma {:induction false} WalkAllSound(c: Checker, v: Json, kids: seq<Child>, depth: nat, path: Path, local: Local)
    requires Fair(c.order) && depth <= c.rules.limit && forall kid <- kids :: ChildOf(kid, v)
    ensures Good(c.rules, local, WalkAll(c, v, kids, depth, path, local), AllNodes(c.rules, kids, depth))
    decreases c.rules.limit + 1 - depth, 0, v, 0, |kids|
  {
    hide Good, Visit;
    if kids == [] {
      GoodNothing(c.rules, local);
    } else {
      assert kids[0] in kids && ChildOf(kids[0], v);
      VisitSound(c, v, kids[0], depth, path, local);
      match Visit(c, v, kids[0], depth, path, local)
      case Err(_) => GoodError(c.rules, local, AllNodes(c.rules, kids, depth), WalkAll(c, v, kids, depth, path, local));
      case Ok(local1) =>
        WalkAllSound(c, v, kids[1..], depth, path, local1);
        GoodThenGood(c.rules, local, local1, WalkAll(c, v, kids[1..], depth, path, local1),
                     KidNodes(c.rules, kids[0], depth), AllNodes(c.rules, kids[1..], depth));
    }
  }

  lemma GoodError(c: Rules, local: Local, nodes: set<Node>, r: Result<Local, Violation>)
    requires r.Err?
    ensures Good(c, local, r, nodes)
  {
  }

  lemma {:induction false} VisitSound(c: Checker, v: Json, kid: Child, depth: nat, path: Path, local: Local)
    requires Fair(c.order) && depth <= c.rules.limit && ChildOf(kid, v)
    ensures Good(c.rules, local, Visit(c, v, kid, depth, path, local), KidNodes(c.rules, kid, depth))
    decreases c.rules.limit + 1 - depth, 0, kid.value, 2, 0
  {
    var path1 := path + [TurnOf(kid)];
    var r := Visit(c, v, kid, depth, path, local);
    match kid
    case Element(_, value) => WalkSound(c, value, depth, path1, local);
    case Field(key, value) =>
      if r.Err? {
        GoodError(c.rules, local, KidNodes(c.rules, kid, depth), r);
      } else {
        var own := {Node(key, value, depth)} + BodyNodes(c.rules, key, value, depth);
        var local1 := CheckEntry(c, key, value, depth, path1, local).value;
        EntrySound(c, key, value, depth, path1, local);
        WalkSound(c, value, depth, path1, local1);
        hide Good, CheckEntry;
        GoodThenGood(c.rules, local, local1, r, own, Nodes(c.rules, value, depth));
        assert KidNodes(c.rules, kid, depth) == own + Nodes(c.rules, value, depth);
      }
  }

  lemma GoodField(c: Rules, local: Local, n: Node)
    requires n.key != "CreateFunctionStmt" && NodeAllowed(c, Permitted(local), n)
    ensures Good(c, local, Ok(local), {n})
  {
    assert Defined({n}) == {} && Grow(local, {}) == local;
    hide NodeAllowed, Grow;
  }

  lemma GoodDefinition(c: Rules, local: Local, n: Node)
    requires n.key == "CreateFunctionStmt" && FieldAllowed(c, n.key, n.value)
    requires DefinitionAllowed(c, n.value, n.depth)
    requires NameOf(n.value) in local ==> local[NameOf(n.value)]
    ensures Good(c, local, Ok(local[NameOf(n.value) := true]), {n})
  {
    assert NodeAllowed(c, Permitted(local[NameOf(n.value) := true]), n);
    hide NodeAllowed, FieldAllowed, DefinitionAllowed, NameOf;
    assert Defined({n}) == {NameOf(n.value)};
    assert Grow(local, {NameOf(n.value)}) == local[NameOf(n.value) := true];
  }

  predicate MayDefine(c: Rules, value: Json, depth: nat, local: Local) {
    DefinitionAllowed(c, value, depth) && (NameOf(value) in local ==> local[NameOf(value)])
  }

  /** What is left of a definition once its name is permitted: the text body, if any. */
  function AfterDefine(c: Checker, value: Json, depth: nat, path: Path, local: Local): Result<Local, Violation>
    requires depth <= c.rules.limit && DefinitionAllowed(c.rules, value, depth)
  {
    var local1 := local[NameOf(value) := true];
    match BodyTree(c.rules, "CreateFunctionStmt", value)
    case None => Ok(local1)
    case Some(tree) => Walk(c, tree, depth + 1, path + [Body], local1)
  }

  lemma HasRoom(c: Rules, value: Json, depth: nat)
    requires DefinitionAllowed(c, value, depth) && BodyTree(c, "CreateFunctionStmt", value).Some?
    ensures depth < c.limit
  {
  }

  /** `definition` in terms of what may be defined. */
  lemma DefineExact(c: Checker, value: Json, depth: nat, path: Path, local: Local)
    requires depth <= c.rules.limit
    ensures DefineFunction(c, value, depth, path, local).Ok? ==> MayDefine(c.rules, value, depth, local)
    ensures MayDefine(c.rules, value, depth, local) ==>
              DefineFunction(c, value, depth, path, local) == AfterDefine(c, value, depth, path, local)
  {
    DefineMeaning(c.rules, value);
    if DefinitionLegal(c.rules, value) && (NameOf(value) in local ==> local[NameOf(value)]) && TextOf(value) != "" {
      assert DefineFunction(c, value, depth, path, local)
          == Parse(c, TextOf(value), false, depth + 1, path + [Body], local[NameOf(value) := true]);
    }
    hide Options, OptionsLegal, LanguageOr, TextOr;
  }

  /** The checks on an entry, and a definition with its text body. */
  lemma {:induction false} EntrySound(c: Checker, key: string, value: Json, depth: nat, path: Path, local: Local)
    requires Fair(c.order) && depth <= c.rules.limit
    ensures Good(c.rules, local, CheckEntry(c, key, value, depth, path, local),
                 {Node(key, value, depth)} + BodyNodes(c.rules, key, value, depth))
    decreases c.rules.limit + 1 - depth, 0, value, 0, 0
  {
    FieldExact(c.rules, key, value);
    CallsExact(c.rules, local, key, value);
    hide Good, CheckField, FieldAllowed, Define, DefinitionAllowed, NameOf, CallIn, CheckCall, CallAllowed,
      DefineFunction;
    hide DefinitionLegal, TextOf;
    var n := Node(key, value, depth);
    var nodes := {n} + BodyNodes(c.rules, key, value, depth);
    var r := CheckEntry(c, key, value, depth, path, local);
    if r.Err? {
      GoodError(c.rules, local, nodes, r);
    } else if key != "CreateFunctionStmt" {
      GoodField(c.rules, local, n);
      assert nodes == {n};
    } else {
      DefineExact(c, value, depth, path, local);
      GoodDefinition(c.rules, local, n);
      if BodyTree(c.rules, key, value).None? {
        assert nodes == {n};
      } else {
        HasRoom(c.rules, value, depth);
        var local1 := local[NameOf(value) := true];
        WalkSound(c, BodyTree(c.rules, key, value).value, depth + 1, path + [Body], local1);
        GoodThenGood(c.rules, local, local1, r, {n}, BodyNodes(c.rules, key, value, depth));
      }
    }
  }

  /** Policy soundness, under any order of visiting and for any parser: if a statement is
      accepted, it is one statement, and every node of it and of every text body it leads to
      is allowed, where a call may name a function of the allowlist, one that was permitted
      to begin with, or one that is defined somewhere in the whole. */
  lemma CheckSound(c: Checker, sql: string, local: Local)
    requires Fair(c.order) && Check(c, sql, local) == None
    ensures c.rules.parser(sql).Some? && |Items(Get(c.rules.parser(sql).value, "stmts"))| == 1
    ensures var nodes := Nodes(c.rules, JObject(c.rules.parser(sql).value), 0);
            && AllAllowed(c.rules, Permitted(local) + Defined(nodes), nodes)
            && NoConflict(local, Defined(nodes))
  {
    var tree := JObject(c.rules.parser(sql).value);
    WalkSound(c, tree, 0, [], local);
    var names := Defined(Nodes(c.rules, tree, 0));
    assert Permitted(Grow(local, names)) == Permitted(local) + names;
  }

  /** A catalog routine outside the allowlist is never called and never defined by an accepted
      statement, at any depth, whatever else the statement defines. */
  lemma CatalogNamesStayOut(c: Checker, sql: string, local: Local, name: string)
    requires Fair(c.order) && Check(c, sql, local) == None
    requires name in local && !local[name] && name !in c.rules.builtins
    ensures forall n <- Nodes(c.rules, JObject(c.rules.parser(sql).value), 0) ::
              && (n.key in {"FuncCall", "CreateTrigStmt", "CreateFunctionStmt"} ==> NameOf(n.value) != name)
              && (n.key == "funcname" ==> LastName(Names(n.value)) != name)
  {
    CheckSound(c, sql, local);
    var nodes := Nodes(c.rules, JObject(c.rules.parser(sql).value), 0);
    var names := Permitted(local) + Defined(nodes);
    hide Nodes, NodeAllowed, Check, NameOf, LastName;
    forall n <- nodes
      ensures n.key in {"FuncCall", "CreateTrigStmt", "CreateFunctionStmt"} ==> NameOf(n.value) != name
      ensures n.key == "funcname" ==> LastName(Names(n.value)) != name
    {
      assert NodeAllowed(c.rules, names, n);
      assert n.key == "CreateFunctionStmt" ==> NameOf(n.value) in Defined(nodes);
      assert name !in names;
      AllowedCallsAvoid(c.rules, names, n, name);
    }
  }

  lemma AllowedCallsAvoid(c: Rules, names: set<string>, n: Node, name: string)
    requires NodeAllowed(c, names, n) && name !in names && name !in c.builtins
    ensures n.key in {"FuncCall", "CreateTrigStmt"} ==> NameOf(n.value) != name
    ensures n.key == "funcname" ==> LastName(Names(n.value)) != name
  {
    hide FieldAllowed, DefinitionAllowed, Names;
  }
}
