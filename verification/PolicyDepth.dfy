/** How far text bodies may nest. */
module PolicyDepth {
  import opened Wrappers
  import opened Policy
  import opened PolicyMeaning
  import opened PolicySoundness

  /** A definition with a text body. */
  predicate HasText(c: Rules, n: Node) {
    n.key == "CreateFunctionStmt" && DefinitionLegal(c, n.value) && TextOf(n.value) != ""
  }

  /** Every text body hangs on a definition above the given depth: text bodies nest at most
      `limit` deep. */
  ghost predicate Within(c: Rules, nodes: set<Node>, limit: nat) {
    forall n <- nodes :: HasText(c, n) ==> n.depth < limit
  }

  /** The same checker under a smaller limit. */
  function Limited(c: Checker, limit: nat): Checker {
    Checker(c.rules.(limit := limit), c.order)
  }

  lemma LimitOnlyMattersForDepth(c: Rules, limit: nat, key: string, value: Json, local: Local, parts: seq<string>)
    ensures CheckField(c.(limit := limit), key, value) == CheckField(c, key, value)
    ensures CheckCall(c.(limit := limit), local, parts) == CheckCall(c, local, parts)
    ensures Define(c.(limit := limit), Fields(value)) == Define(c, Fields(value))
    ensures DefinitionLegal(c.(limit := limit), value) <==> DefinitionLegal(c, value)
  {
  }

  /** Acceptance under the smaller limit, told from acceptance under the larger one. */
  ghost predicate LimitExact(c: Rules, r': Result<Local, Violation>, r: Result<Local, Violation>, nodes: set<Node>,
                             limit: nat) {
    && (r'.Ok? <==> r.Ok? && Within(c, nodes, limit))
    && (r'.Ok? ==> r' == r)
  }

  lemma WithinUnion(c: Rules, a: set<Node>, b: set<Node>, limit: nat)
    ensures Within(c, a + b, limit) <==> Within(c, a, limit) && Within(c, b, limit)
  {
    hide HasText;
    if Within(c, a + b, limit) {
      forall n | n in a || n in b ensures HasText(c, n) ==> n.depth < limit {
        assert n in a + b;
      }
    }
  }

  /** One part after another, where the second is only looked at if the first is accepted. */
  lemma LimitThen(c: Rules, first': Result<Local, Violation>, first: Result<Local, Violation>,
                  second': Result<Local, Violation>, second: Result<Local, Violation>,
                  a: set<Node>, b: set<Node>, limit: nat)
    requires LimitExact(c, first', first, a, limit)
    requires first.Ok? ==> LimitExact(c, second', second, b, limit)
    ensures LimitExact(c, if first'.Ok? then second' else first', if first.Ok? then second else first, a + b, limit)
  {
    hide Within;
    WithinUnion(c, a, b, limit);
  }

  lemma {:induction false} WalkLimit(c: Checker, limit: nat, v: Json, depth: nat, path: Path, local: Local)
    requires Fair(c.order) && depth <= limit <= c.rules.limit
    ensures LimitExact(c.rules, Walk(Limited(c, limit), v, depth, path, local), Walk(c, v, depth, path, local),
                       Nodes(c.rules, v, depth), limit)
    decreases limit + 1 - depth, 0, v, 1, 0
  {
    hide LimitExact;
    assert Children(Limited(c, limit), v, path) == Children(c, v, path);
    WalkAllLimit(c, limit, v, Children(c, v, path), depth, path, local);
    ChildrenNodes(c, v, depth, path);
  }

  lemma {:induction false} WalkAllLimit(c: Checker, limit: nat, v: Json, kids: seq<Child>, depth: nat, path: Path,
                                        local: Local)
    requires Fair(c.order) && depth <= limit <= c.rules.limit && forall kid <- kids :: ChildOf(kid, v)
    ensures LimitExact(c.rules, WalkAll(Limited(c, limit), v, kids, depth, path, local),
                       WalkAll(c, v, kids, depth, path, local),
                       AllNodes(c.rules, kids, depth), limit)
    decreases limit + 1 - depth, 0, v, 0, |kids|
  {
    hide Visit, Within;
    if kids == [] {
      assert Within(c.rules, {}, limit) by { NothingWithin(c.rules, limit); }
    } else {
      assert kids[0] in kids && ChildOf(kids[0], v);
      VisitLimit(c, limit, v, kids[0], depth, path, local);
      var r := Visit(c, v, kids[0], depth, path, local);
      WithinUnion(c.rules, KidNodes(c.rules, kids[0], depth), AllNodes(c.rules, kids[1..], depth), limit);
      if r.Ok? {
        WalkAllLimit(c, limit, v, kids[1..], depth, path, r.value);
      }
    }
  }

  lemma OneWithin(c: Rules, n: Node, limit: nat)
    ensures Within(c, {n}, limit) <==> (HasText(c, n) ==> n.depth < limit)
  {
    hide HasText;
    assert n in {n};
  }

  lemma NothingWithin(c: Rules, limit: nat)
    ensures Within(c, {}, limit)
  {
  }

  lemma {:induction false} VisitLimit(c: Checker, limit: nat, v: Json, kid: Child, depth: nat, path: Path, local: Local)
    requires Fair(c.order) && depth <= limit <= c.rules.limit && ChildOf(kid, v)
    ensures LimitExact(c.rules, Visit(Limited(c, limit), v, kid, depth, path, local),
                       Visit(c, v, kid, depth, path, local),
                       KidNodes(c.rules, kid, depth), limit)
    decreases limit + 1 - depth, 0, kid.value, 2, 0
  {
    var path1 := path + [TurnOf(kid)];
    match kid
    case Element(_, value) => WalkLimit(c, limit, value, depth, path1, local);
    case Field(key, value) =>
      EntryLimit(c, limit, key, value, depth, path1, local);
      var own := {Node(key, value, depth)} + BodyNodes(c.rules, key, value, depth);
      assert KidNodes(c.rules, kid, depth) == own + Nodes(c.rules, value, depth);
      hide CheckEntry, LimitExact, Walk, Nodes, BodyNodes, KidNodes;
      var r' := CheckEntry(Limited(c, limit), key, value, depth, path1, local);
      var r := CheckEntry(c, key, value, depth, path1, local);
      if r.Ok? {
        var local1 := r.value;
        WalkLimit(c, limit, value, depth, path1, local1);
        assert r'.Ok? ==> r' == r by { LimitSame(c.rules, r', r, own, limit); }
        LimitThen(c.rules, r', r, Walk(Limited(c, limit), value, depth, path1, local1),
                  Walk(c, value, depth, path1, local1),
                  own, Nodes(c.rules, value, depth), limit);
      } else {
        LimitThen(c.rules, r', r, r', r, own, Nodes(c.rules, value, depth), limit);
      }
  }

  lemma LimitSame(c: Rules, r': Result<Local, Violation>, r: Result<Local, Violation>, nodes: set<Node>, limit: nat)
    requires LimitExact(c, r', r, nodes, limit)
    ensures r'.Ok? ==> r' == r
  {
  }

  lemma {:induction false} EntryLimit(c: Checker, limit: nat, key: string, value: Json, depth: nat, path: Path,
                                      local: Local)
    requires Fair(c.order) && depth <= limit <= c.rules.limit
    ensures LimitExact(c.rules, CheckEntry(Limited(c, limit), key, value, depth, path, local),
                       CheckEntry(c, key, value, depth, path, local),
                       {Node(key, value, depth)} + BodyNodes(c.rules, key, value, depth), limit)
    decreases limit + 1 - depth, 0, value, 1, 0
  {
    var parts := if CallIn(key, value).Some? then CallIn(key, value).value else [];
    LimitOnlyMattersForDepth(c.rules, limit, key, value, local, parts);
    hide CheckField, CheckCall, Define, DefineFunction;
    if key == "CreateFunctionStmt" {
      DefineLimit(c, limit, value, depth, path, local);
    }
  }

  lemma {:induction false} DefineLimit(c: Checker, limit: nat, value: Json, depth: nat, path: Path, local: Local)
    requires Fair(c.order) && depth <= limit <= c.rules.limit
    ensures LimitExact(c.rules, DefineFunction(Limited(c, limit), value, depth, path, local),
                       DefineFunction(c, value, depth, path, local),
                       {Node("CreateFunctionStmt", value, depth)}
                         + BodyNodes(c.rules, "CreateFunctionStmt", value, depth),
                       limit)
    decreases limit + 1 - depth, 0, value, 0, 0
  {
    hide DefineFunction, DefinitionAllowed, BodyTree, Walk, NameOf, HasText, Nodes, Within;
    var n := Node("CreateFunctionStmt", value, depth);
    var tree := BodyTree(c.rules, n.key, value);
    OneWithin(c.rules, n, limit);
    NothingWithin(c.rules, limit);
    WithinUnion(c.rules, {n}, BodyNodes(c.rules, n.key, value, depth), limit);
    DefineExact(c, value, depth, path, local);
    DefineExact(Limited(c, limit), value, depth, path, local);
    DefinitionLimit(c.rules, limit, value, depth);
    if MayDefine(c.rules.(limit := limit), value, depth, local) && tree.Some? {
      HasRoom(c.rules.(limit := limit), value, depth);
      WalkLimit(c, limit, tree.value, depth + 1, path + [Body], local[NameOf(value) := true]);
    }
  }

  lemma DefinitionLimit(c: Rules, limit: nat, value: Json, depth: nat)
    requires depth <= limit <= c.limit
    ensures BodyTree(c.(limit := limit), "CreateFunctionStmt", value) == BodyTree(c, "CreateFunctionStmt", value)
    ensures DefinitionAllowed(c.(limit := limit), value, depth) <==>
            && DefinitionAllowed(c, value, depth)
            && (HasText(c, Node("CreateFunctionStmt", value, depth)) ==> depth < limit)
    ensures DefinitionAllowed(c, value, depth) ==>
              (HasText(c, Node("CreateFunctionStmt", value, depth)) <==> BodyTree(c, "CreateFunctionStmt", value).Some?)
  {
    LimitOnlyMattersForDepth(c, limit, "", value, map[], []);
    hide DefinitionLegal, TextOf;
  }

  /** The bound on nesting, exactly. Under the source's limit a statement is accepted if and
      only if it is accepted under a larger one and its text bodies nest at most 16 deep: so a
      chain of n bodies that are legal otherwise passes exactly when n is at most 16, and
      bodies in `sql_body` form cost nothing. */
  lemma NestingExact(c: Checker, sql: string, local: Local)
    requires Fair(c.order) && c.rules.limit >= MAX_DEPTH && c.rules.parser(sql).Some?
    ensures Check(Limited(c, MAX_DEPTH), sql, local) == None <==>
            Check(c, sql, local) == None
            && Within(c.rules, Nodes(c.rules, JObject(c.rules.parser(sql).value), 0), MAX_DEPTH)
  {
    WalkLimit(c, MAX_DEPTH, JObject(c.rules.parser(sql).value), 0, [], local);
    hide Walk, Nodes, Within;
  }

  /** A statement whose text bodies nest exactly `n` deep and that has no other fault. */
  lemma BodiesNestedExactly(c: Checker, sql: string, local: Local, n: nat)
    requires Fair(c.order) && c.rules.limit >= MAX_DEPTH && Check(c, sql, local) == None
    requires var nodes := Nodes(c.rules, JObject(c.rules.parser(sql).value), 0);
             Within(c.rules, nodes, n) && (n > 0 ==> !Within(c.rules, nodes, n - 1))
    ensures Check(Limited(c, MAX_DEPTH), sql, local) == None <==> n <= 16
  {
    NestingExact(c, sql, local);
    hide Check, Nodes, HasText;
  }
}
