/** What is enough to be accepted, a shape of trees on which the order of visiting has no say,
    and that permitting more names never turns acceptance into rejection. */
module PolicyOrder {
  import opened Wrappers
  import opened Policy
  import opened PolicyMeaning
  import opened PolicySoundness

  // ---------------------------------------------------------------------- completeness

  /** Every node is allowed under the names permitted from the start, and no definition takes
      the name of a catalog routine. */
  ghost predicate Enough(c: Rules, local: Local, nodes: set<Node>) {
    AllAllowed(c, Permitted(local), nodes) && NoConflict(local, Defined(nodes))
  }

  lemma EnoughAfter(c: Rules, local: Local, names: set<string>, a: set<Node>, b: set<Node>)
    requires Enough(c, local, a + b)
    ensures Enough(c, local, a) && Enough(c, Grow(local, names), b)
  {
    AllAllowedUnion(c, Permitted(local), a, b);
    assert Defined(a + b) == Defined(a) + Defined(b);
    assert Permitted(local) <= Permitted(Grow(local, names));
    AllowedMore(c, Permitted(local), Permitted(Grow(local, names)), b);
    hide AllAllowed;
  }

  lemma {:induction false} WalkComplete(c: Checker, v: Json, depth: nat, path: Path, local: Local)
    requires Fair(c.order) && depth <= c.rules.limit && Enough(c.rules, local, Nodes(c.rules, v, depth))
    ensures Walk(c, v, depth, path, local).Ok?
    decreases c.rules.limit + 1 - depth, 0, v, 1, 0
  {
    ChildrenNodes(c, v, depth, path);
    WalkAllComplete(c, v, Children(c, v, path), depth, path, local);
  }

  lemma {:induction false} WalkAllComplete(c: Checker, v: Json, kids: seq<Child>, depth: nat, path: Path, local: Local)
    requires Fair(c.order) && depth <= c.rules.limit && forall kid <- kids :: ChildOf(kid, v)
    requires Enough(c.rules, local, AllNodes(c.rules, kids, depth))
    ensures WalkAll(c, v, kids, depth, path, local).Ok?
    decreases c.rules.limit + 1 - depth, 0, v, 0, |kids|
  {
    hide Enough, Visit, Grow, Defined;
    if kids != [] {
      assert kids[0] in kids && ChildOf(kids[0], v);
      var first, rest := KidNodes(c.rules, kids[0], depth), AllNodes(c.rules, kids[1..], depth);
      EnoughAfter(c.rules, local, Defined(first), first, rest);
      VisitComplete(c, v, kids[0], depth, path, local);
      VisitSound(c, v, kids[0], depth, path, local);
      WalkAllComplete(c, v, kids[1..], depth, path, Grow(local, Defined(first)));
    }
  }

  lemma {:induction false} VisitComplete(c: Checker, v: Json, kid: Child, depth: nat, path: Path, local: Local)
    requires Fair(c.order) && depth <= c.rules.limit && ChildOf(kid, v)
    requires Enough(c.rules, local, KidNodes(c.rules, kid, depth))
    ensures Visit(c, v, kid, depth, path, local).Ok?
    decreases c.rules.limit + 1 - depth, 0, kid.value, 2, 0
  {
    var path1 := path + [TurnOf(kid)];
    match kid
    case Element(_, value) => WalkComplete(c, value, depth, path1, local);
    case Field(key, value) =>
      hide Enough, Grow, Defined, NodeAllowed;
      var own := {Node(key, value, depth)} + BodyNodes(c.rules, key, value, depth);
      assert KidNodes(c.rules, kid, depth) == own + Nodes(c.rules, value, depth);
      EnoughAfter(c.rules, local, Defined(own), own, Nodes(c.rules, value, depth));
      EntryComplete(c, key, value, depth, path1, local);
      EntrySound(c, key, value, depth, path1, local);
      WalkComplete(c, value, depth, path1, Grow(local, Defined(own)));
  }

  lemma {:induction false} EntryComplete(c: Checker, key: string, value: Json, depth: nat, path: Path, local: Local)
    requires Fair(c.order) && depth <= c.rules.limit
    requires Enough(c.rules, local, {Node(key, value, depth)} + BodyNodes(c.rules, key, value, depth))
    ensures CheckEntry(c, key, value, depth, path, local).Ok?
    decreases c.rules.limit + 1 - depth, 0, value, 1, 0
  {
    FieldExact(c.rules, key, value);
    CallsExact(c.rules, local, key, value);
    hide CheckField, FieldAllowed, Define, CallIn, CheckCall, CallAllowed, DefineFunction, DefinitionAllowed;
    var n := Node(key, value, depth);
    assert n in {n} + BodyNodes(c.rules, key, value, depth) && NodeAllowed(c.rules, Permitted(local), n);
    if key == "CreateFunctionStmt" {
      assert NameOf(value) in Defined({n} + BodyNodes(c.rules, key, value, depth));
      hide NameOf, Enough, Defined, AllAllowed, NoConflict;
      DefineComplete(c, value, depth, path, local);
    }
  }

  lemma {:induction false} DefineComplete(c: Checker, value: Json, depth: nat, path: Path, local: Local)
    requires Fair(c.order) && depth <= c.rules.limit && MayDefine(c.rules, value, depth, local)
    requires Enough(c.rules, local,
                    {Node("CreateFunctionStmt", value, depth)} + BodyNodes(c.rules, "CreateFunctionStmt", value, depth))
    ensures DefineFunction(c, value, depth, path, local).Ok?
    decreases c.rules.limit + 1 - depth, 0, value, 0, 0
  {
    hide DefineFunction, DefinitionAllowed, NameOf, Enough, AllAllowed, BodyTree, Walk, Nodes;
    var n := Node("CreateFunctionStmt", value, depth);
    var tree := BodyTree(c.rules, n.key, value);
    DefineExact(c, value, depth, path, local);
    if tree.Some? {
      HasRoom(c.rules, value, depth);
      EnoughAfter(c.rules, local, {NameOf(value)}, {n}, BodyNodes(c.rules, n.key, value, depth));
      assert Grow(local, {NameOf(value)}) == local[NameOf(value) := true];
      WalkComplete(c, tree.value, depth + 1, path + [Body], local[NameOf(value) := true]);
    }
  }

  /** No definition anywhere in the statement. */
  ghost predicate DefinitionFree(nodes: set<Node>) {
    forall n <- nodes :: n.key != "CreateFunctionStmt"
  }

  lemma NoneDefined(nodes: set<Node>)
    requires DefinitionFree(nodes)
    ensures Defined(nodes) == {}
  {
  }

  /** Enough for every order: a statement whose nodes are all allowed under the names that were
      permitted from the start is accepted. */
  lemma CheckComplete(c: Checker, sql: string, local: Local)
    requires Fair(c.order)
    requires c.rules.parser(sql).Some? && |Items(Get(c.rules.parser(sql).value, "stmts"))| == 1
    requires Enough(c.rules, local, Nodes(c.rules, JObject(c.rules.parser(sql).value), 0))
    ensures Check(c, sql, local) == None
  {
    WalkComplete(c, JObject(c.rules.parser(sql).value), 0, [], local);
  }

  /** Without function definitions the checker decides exactly whether every node is allowed. */
  lemma CheckExactWithoutDefinitions(c: Checker, sql: string, local: Local)
    requires Fair(c.order) && c.rules.parser(sql).Some?
    requires DefinitionFree(Nodes(c.rules, JObject(c.rules.parser(sql).value), 0))
    ensures var tree := c.rules.parser(sql).value;
            Check(c, sql, local) == None <==>
            |Items(Get(tree, "stmts"))| == 1
            && AllAllowed(c.rules, Permitted(local), Nodes(c.rules, JObject(tree), 0))
  {
    var tree := c.rules.parser(sql).value;
    var nodes := Nodes(c.rules, JObject(tree), 0);
    NoneDefined(nodes);
    hide AllAllowed, Nodes, Walk;
    if Check(c, sql, local) == None {
      CheckSound(c, sql, local);
      assert Permitted(local) + {} == Permitted(local);
    } else if |Items(Get(tree, "stmts"))| == 1 && AllAllowed(c.rules, Permitted(local), nodes) {
      CheckComplete(c, sql, local);
    }
  }

  // ---------------------------------------------------------------- independent of order

  ghost predicate CallFree(nodes: set<Node>) {
    forall n <- nodes :: !MakesCall(n.key)
  }

  /** Of two entries of one object, if one leads to a definition, the other holds neither a
      definition nor a call. */
  ghost predicate Apart(c: Rules, v: Json, depth: nat, j: string, k: string)
    requires depth <= c.limit && v.JObject? && j in v.fields && k in v.fields
  {
    DefinitionFree(FieldNodes(c, j, v.fields[j], depth))
    || (DefinitionFree(FieldNodes(c, k, v.fields[k], depth)) && CallFree(FieldNodes(c, k, v.fields[k], depth)))
  }

  /** Trees in which no definition competes with a call beside it, through all text bodies: a
      shape that can be told without the names. It is enough, not necessary; the exact condition
      is in PolicySchedules. */
  ghost predicate Orderly(c: Rules, v: Json, depth: nat)
    requires depth <= c.limit
    decreases c.limit + 1 - depth, v, 1
  {
    match v
    case JArray(items) => forall i | 0 <= i < |items| :: Orderly(c, items[i], depth)
    case JObject(fields) =>
      && (forall k <- fields :: Orderly(c, fields[k], depth) && BodyOrderly(c, k, fields[k], depth))
      && (forall j, k | j in fields && k in fields && j != k :: Apart(c, v, depth, j, k))
    case _ => true
  }

  ghost predicate BodyOrderly(c: Rules, key: string, value: Json, depth: nat)
    requires depth <= c.limit
    decreases c.limit + 1 - depth, value, 0
  {
    BodyTree(c, key, value).Some? && depth < c.limit ==> Orderly(c, BodyTree(c, key, value).value, depth + 1)
  }

  ghost predicate KidOrderly(c: Rules, kid: Child, depth: nat)
    requires depth <= c.limit
  {
    && Orderly(c, kid.value, depth)
    && (kid.Field? ==> BodyOrderly(c, kid.key, kid.value, depth))
  }

  /** Two results are both errors, or the same map. */
  predicate SameVerdict(r: Result<Local, Violation>, r': Result<Local, Violation>) {
    r.Ok? == r'.Ok? && (r.Ok? ==> r == r')
  }

  /** Kids that can be visited in any order. */
  ghost predicate Independent(c: Rules, a: Child, b: Child, depth: nat)
    requires depth <= c.limit
  {
    DefinitionFree(KidNodes(c, a, depth))
    || (DefinitionFree(KidNodes(c, b, depth)) && CallFree(KidNodes(c, b, depth)))
  }

  /** Without definitions and calls the names do not matter, and without definitions they do
      not change. */
  lemma VisitIgnoresNames(c: Checker, v: Json, kid: Child, depth: nat, path: Path, local: Local, local': Local)
    requires Fair(c.order) && depth <= c.rules.limit && ChildOf(kid, v)
    requires DefinitionFree(KidNodes(c.rules, kid, depth)) && CallFree(KidNodes(c.rules, kid, depth))
    ensures Visit(c, v, kid, depth, path, local).Ok? <==> Visit(c, v, kid, depth, path, local').Ok?
  {
    var nodes := KidNodes(c.rules, kid, depth);
    NoneDefined(nodes);
    VisitSound(c, v, kid, depth, path, local);
    VisitSound(c, v, kid, depth, path, local');
    hide Visit, KidNodes, FieldAllowed, DefinitionAllowed, CallAllowed;
    forall a, b | AllAllowed(c.rules, a, nodes) ensures AllAllowed(c.rules, b, nodes) {
      forall n <- nodes ensures NodeAllowed(c.rules, b, n) {
        assert NodeAllowed(c.rules, a, n);
      }
    }
    if AllAllowed(c.rules, Permitted(local), nodes) {
      VisitComplete(c, v, kid, depth, path, local);
      VisitComplete(c, v, kid, depth, path, local');
    }
  }

  /** A kid is accepted after an independent one exactly when it is accepted before it. */
  lemma VisitAfter(c: Checker, v: Json, first: Child, kid: Child, depth: nat, path: Path, local: Local)
    requires Fair(c.order) && depth <= c.rules.limit && ChildOf(first, v) && ChildOf(kid, v)
    requires Independent(c.rules, first, kid, depth) && Visit(c, v, first, depth, path, local).Ok?
    ensures var local1 := Visit(c, v, first, depth, path, local).value;
            Visit(c, v, kid, depth, path, local1).Ok? <==> Visit(c, v, kid, depth, path, local).Ok?
  {
    hide Visit, KidNodes, CallFree, DefinitionFree;
    var local1 := Visit(c, v, first, depth, path, local).value;
    VisitSound(c, v, first, depth, path, local);
    if DefinitionFree(KidNodes(c.rules, first, depth)) {
      NoneDefined(KidNodes(c.rules, first, depth));
      assert Grow(local, {}) == local;
    } else {
      VisitIgnoresNames(c, v, kid, depth, path, local1, local);
    }
  }

  /** Independent kids are all accepted exactly when each is accepted first. */
  lemma {:induction false} WalkAllSplits(c: Checker, v: Json, kids: seq<Child>, depth: nat, path: Path, local: Local)
    requires Fair(c.order) && depth <= c.rules.limit && forall kid <- kids :: ChildOf(kid, v)
    requires forall i, j | 0 <= i < j < |kids| :: Independent(c.rules, kids[i], kids[j], depth)
    ensures WalkAll(c, v, kids, depth, path, local).Ok? <==>
            forall kid <- kids :: Visit(c, v, kid, depth, path, local).Ok?
    decreases |kids|
  {
    hide Visit, Independent;
    if kids != [] {
      var first, rest := kids[0], kids[1..];
      assert kids == [first] + rest && first in kids;
      assert forall kid :: kid in kids <==> kid == first || kid in rest;
      match Visit(c, v, first, depth, path, local)
      case Err(_) =>
      case Ok(local1) =>
        WalkAllSplits(c, v, rest, depth, path, local1);
        forall kid <- rest
          ensures Visit(c, v, kid, depth, path, local1).Ok? <==> Visit(c, v, kid, depth, path, local).Ok?
        {
          var i :| 0 <= i < |rest| && rest[i] == kid;
          assert Independent(c.rules, kids[0], kids[i + 1], depth);
          VisitAfter(c, v, first, kid, depth, path, local);
        }
    }
  }

  // The same tree under two schedules.

  lemma {:induction false} WalkSame(c: Checker, c': Checker, v: Json, depth: nat, path: Path, path': Path, local: Local)
    requires Fair(c.order) && Fair(c'.order) && c'.rules == c.rules
    requires depth <= c.rules.limit && Orderly(c.rules, v, depth)
    ensures SameVerdict(Walk(c, v, depth, path, local), Walk(c', v, depth, path', local))
    decreases c.rules.limit + 1 - depth, 0, v, 1, 0
  {
    WalkSound(c, v, depth, path, local);
    WalkSound(c', v, depth, path', local);
    match v
    case JArray(_) => ElementsSame(c, c', v, Elements(v), depth, path, path', local);
    case JObject(_) => EntriesSame(c, c', v, depth, path, path', local);
    case _ =>
  }

  lemma {:induction false} ElementsSame(c: Checker, c': Checker, v: Json, kids: seq<Child>, depth: nat,
                                        path: Path, path': Path, local: Local)
    requires Fair(c.order) && Fair(c'.order) && c'.rules == c.rules && depth <= c.rules.limit
    requires forall kid <- kids :: ChildOf(kid, v) && KidOrderly(c.rules, kid, depth)
    ensures SameVerdict(WalkAll(c, v, kids, depth, path, local), WalkAll(c', v, kids, depth, path', local))
    decreases c.rules.limit + 1 - depth, 0, v, 0, |kids|
  {
    hide Visit, KidOrderly;
    if kids != [] {
      assert kids[0] in kids && ChildOf(kids[0], v) && KidOrderly(c.rules, kids[0], depth);
      VisitSame(c, c', v, kids[0], depth, path, path', local);
      var r := Visit(c, v, kids[0], depth, path, local);
      if r.Ok? {
        ElementsSame(c, c', v, kids[1..], depth, path, path', r.value);
      }
    }
  }

  lemma {:induction false} EntriesSame(c: Checker, c': Checker, v: Json, depth: nat, path: Path, path': Path,
                                       local: Local)
    requires Fair(c.order) && Fair(c'.order) && c'.rules == c.rules
    requires depth <= c.rules.limit && v.JObject? && Orderly(c.rules, v, depth)
    ensures Walk(c, v, depth, path, local).Ok? <==> Walk(c', v, depth, path', local).Ok?
    decreases c.rules.limit + 1 - depth, 0, v, 0, 0
  {
    var kids, kids' := Children(c, v, path), Children(c', v, path');
    ChildrenIndependent(c, v, depth, path);
    ChildrenIndependent(c', v, depth, path');
    WalkAllSplits(c, v, kids, depth, path, local);
    WalkAllSplits(c', v, kids', depth, path', local);
    forall kid
      ensures kid in kids <==> kid in kids'
      ensures kid in kids ==> (Visit(c, v, kid, depth, path, local).Ok? <==> Visit(c', v, kid, depth, path', local).Ok?)
    {
      ChildrenHas(c, v, path, kid);
      ChildrenHas(c', v, path', kid);
      if kid in kids {
        hide Visit;
        VisitSame(c, c', v, kid, depth, path, path', local);
      }
    }
  }

  lemma {:induction false} EntriesDistinct(v: Json, order: seq<string>)
    requires v.JObject? && forall i, j | 0 <= i < j < |order| :: order[i] != order[j]
    ensures forall i, j | 0 <= i < j < |Entries(v, order)| ::
              Entries(v, order)[i].Field? && Entries(v, order)[j].Field?
                && Entries(v, order)[i].key != Entries(v, order)[j].key
  {
    if order != [] {
      EntriesDistinct(v, order[1..]);
      forall kid ensures kid in Entries(v, order[1..]) ==> kid.Field? && kid.key != order[0] {
        EntriesHas(v, order[1..], kid);
      }
    }
  }

  lemma ChildrenIndependent(c: Checker, v: Json, depth: nat, path: Path)
    requires Fair(c.order) && depth <= c.rules.limit && v.JObject? && Orderly(c.rules, v, depth)
    ensures var kids := Children(c, v, path);
            forall i, j | 0 <= i < j < |kids| :: Independent(c.rules, kids[i], kids[j], depth)
  {
    var kids := Children(c, v, path);
    var order := c.order(path, v.fields.Keys);
    assert Lists(order, v.fields.Keys);
    EntriesDistinct(v, order);
    hide DefinitionFree, CallFree, Lists;
    forall i, j | 0 <= i < j < |kids| ensures Independent(c.rules, kids[i], kids[j], depth) {
      assert kids[i] in kids && kids[j] in kids;
      assert Apart(c.rules, v, depth, kids[i].key, kids[j].key);
    }
  }

  lemma {:induction false} VisitSame(c: Checker, c': Checker, v: Json, kid: Child, depth: nat, path: Path,
                                     path': Path, local: Local)
    requires Fair(c.order) && Fair(c'.order) && c'.rules == c.rules
    requires depth <= c.rules.limit && ChildOf(kid, v) && KidOrderly(c.rules, kid, depth)
    ensures SameVerdict(Visit(c, v, kid, depth, path, local), Visit(c', v, kid, depth, path', local))
    decreases c.rules.limit + 1 - depth, 0, kid.value, 2, 0
  {
    var path1, path1' := path + [TurnOf(kid)], path' + [TurnOf(kid)];
    match kid
    case Element(_, value) => WalkSame(c, c', value, depth, path1, path1', local);
    case Field(key, value) =>
      EntrySame(c, c', key, value, depth, path1, path1', local);
      var r := CheckEntry(c, key, value, depth, path1, local);
      if r.Ok? {
        WalkSame(c, c', value, depth, path1, path1', r.value);
      }
  }

  lemma {:induction false} EntrySame(c: Checker, c': Checker, key: string, value: Json, depth: nat, path: Path,
                                     path': Path, local: Local)
    requires Fair(c.order) && Fair(c'.order) && c'.rules == c.rules
    requires depth <= c.rules.limit && BodyOrderly(c.rules, key, value, depth)
    ensures SameVerdict(CheckEntry(c, key, value, depth, path, local), CheckEntry(c', key, value, depth, path', local))
    decreases c.rules.limit + 1 - depth, 0, value, 1, 0
  {
    hide CheckField, CheckCall, DefineFunction;
    if key == "CreateFunctionStmt" {
      DefineSame(c, c', value, depth, path, path', local);
    }
  }

  lemma {:induction false} DefineSame(c: Checker, c': Checker, value: Json, depth: nat, path: Path, path': Path,
                                      local: Local)
    requires Fair(c.order) && Fair(c'.order) && c'.rules == c.rules
    requires depth <= c.rules.limit && BodyOrderly(c.rules, "CreateFunctionStmt", value, depth)
    ensures SameVerdict(DefineFunction(c, value, depth, path, local), DefineFunction(c', value, depth, path', local))
    decreases c.rules.limit + 1 - depth, 0, value, 0, 0
  {
    hide DefineFunction, DefinitionAllowed, BodyTree, Walk;
    DefineExact(c, value, depth, path, local);
    DefineExact(c', value, depth, path', local);
    var tree := BodyTree(c.rules, "CreateFunctionStmt", value);
    if MayDefine(c.rules, value, depth, local) && tree.Some? {
      HasRoom(c.rules, value, depth);
      WalkSame(c, c', tree.value, depth + 1, path + [Body], path' + [Body], local[NameOf(value) := true]);
    }
  }

  /** A statement whose tree, and the trees of all text bodies it leads to, are orderly. */
  ghost predicate OrderlyStatement(c: Rules, sql: string) {
    c.parser(sql).Some? ==> Orderly(c, JObject(c.parser(sql).value), 0)
  }

  /** For orderly statements the decision is the same under all schedules. */
  lemma OrderlyIgnoresOrder(c: Checker, c': Checker, sql: string, local: Local)
    requires Fair(c.order) && Fair(c'.order) && c'.rules == c.rules && OrderlyStatement(c.rules, sql)
    ensures Check(c, sql, local) == None <==> Check(c', sql, local) == None
  {
    if c.rules.parser(sql).Some? {
      WalkSame(c, c', JObject(c.rules.parser(sql).value), 0, [], [], local);
    }
  }

  // -------------------------------------------------------------------------- monotony

  /** A map that permits at least as much, and marks no more names as catalog routines. */
  predicate PermitsMore(local: Local, local': Local) {
    && (forall n <- local :: local[n] ==> n in local' && local'[n])
    && (forall n <- local' :: !local'[n] ==> n in local && !local[n])
  }

  lemma GrowPermitsMore(local: Local, local': Local, names: set<string>)
    requires PermitsMore(local, local')
    ensures PermitsMore(Grow(local, names), Grow(local', names))
  {
  }

  lemma CallPermitsMore(c: Rules, local: Local, local': Local, parts: seq<string>)
    requires PermitsMore(local, local') && CheckCall(c, local, parts) == None
    ensures CheckCall(c, local', parts) == None
  {
  }

  lemma {:induction false} WalkMonotone(c: Checker, v: Json, depth: nat, path: Path, local: Local, local': Local)
    requires Fair(c.order) && depth <= c.rules.limit && PermitsMore(local, local')
    requires Walk(c, v, depth, path, local).Ok?
    ensures Walk(c, v, depth, path, local').Ok?
    decreases c.rules.limit + 1 - depth, 0, v, 1, 0
  {
    WalkAllMonotone(c, v, Children(c, v, path), depth, path, local, local');
  }

  lemma {:induction false} WalkAllMonotone(c: Checker, v: Json, kids: seq<Child>, depth: nat, path: Path,
                                           local: Local, local': Local)
    requires Fair(c.order) && depth <= c.rules.limit && forall kid <- kids :: ChildOf(kid, v)
    requires PermitsMore(local, local') && WalkAll(c, v, kids, depth, path, local).Ok?
    ensures WalkAll(c, v, kids, depth, path, local').Ok?
    decreases c.rules.limit + 1 - depth, 0, v, 0, |kids|
  {
    hide Visit, PermitsMore, Grow, AllAllowed, NoConflict;
    if kids != [] {
      assert kids[0] in kids && ChildOf(kids[0], v);
      VisitMonotone(c, v, kids[0], depth, path, local, local');
      VisitSound(c, v, kids[0], depth, path, local);
      VisitSound(c, v, kids[0], depth, path, local');
      GrowPermitsMore(local, local', Defined(KidNodes(c.rules, kids[0], depth)));
      WalkAllMonotone(c, v, kids[1..], depth, path, Visit(c, v, kids[0], depth, path, local).value,
                      Visit(c, v, kids[0], depth, path, local').value);
    }
  }

  lemma {:induction false} VisitMonotone(c: Checker, v: Json, kid: Child, depth: nat, path: Path, local: Local,
                                         local': Local)
    requires Fair(c.order) && depth <= c.rules.limit && ChildOf(kid, v)
    requires PermitsMore(local, local') && Visit(c, v, kid, depth, path, local).Ok?
    ensures Visit(c, v, kid, depth, path, local').Ok?
    decreases c.rules.limit + 1 - depth, 0, kid.value, 2, 0
  {
    var path1 := path + [TurnOf(kid)];
    match kid
    case Element(_, value) => WalkMonotone(c, value, depth, path1, local, local');
    case Field(key, value) =>
      hide CheckEntry, PermitsMore, Grow, AllAllowed, NoConflict;
      EntryMonotone(c, key, value, depth, path1, local, local');
      EntrySound(c, key, value, depth, path1, local);
      EntrySound(c, key, value, depth, path1, local');
      GrowPermitsMore(local, local', Defined({Node(key, value, depth)} + BodyNodes(c.rules, key, value, depth)));
      WalkMonotone(c, value, depth, path1, CheckEntry(c, key, value, depth, path1, local).value,
                   CheckEntry(c, key, value, depth, path1, local').value);
  }

  lemma {:induction false} EntryMonotone(c: Checker, key: string, value: Json, depth: nat, path: Path, local: Local,
                                         local': Local)
    requires Fair(c.order) && depth <= c.rules.limit
    requires PermitsMore(local, local') && CheckEntry(c, key, value, depth, path, local).Ok?
    ensures CheckEntry(c, key, value, depth, path, local').Ok?
    decreases c.rules.limit + 1 - depth, 0, value, 0, 0
  {
    hide CheckField, CheckCall, Define, DefineFunction, TextOf, DefinitionLegal;
    if CallIn(key, value).Some? {
      CallPermitsMore(c.rules, local, local', CallIn(key, value).value);
    }
    if key == "CreateFunctionStmt" {
      var name := NameOf(value);
      DefineExact(c, value, depth, path, local);
      DefineExact(c, value, depth, path, local');
      if BodyTree(c.rules, key, value).Some? {
        WalkMonotone(c, BodyTree(c.rules, key, value).value, depth + 1, path + [Body], local[name := true],
                     local'[name := true]);
      }
    }
  }

  /** Permitting more names, under the same schedule, never turns acceptance into rejection. */
  lemma CheckMonotone(c: Checker, sql: string, local: Local, local': Local)
    requires Fair(c.order) && PermitsMore(local, local') && Check(c, sql, local) == None
    ensures Check(c, sql, local') == None
  {
    WalkMonotone(c, JObject(c.rules.parser(sql).value), 0, [], local, local');
  }

  /** A name that `definition` has accepted resolves when the walk comes to it again, in the
      `funcname` entry of the definition itself, whatever has been defined in between. */
  lemma DefinitionPassesItsOwnName(c: Checker, value: Json, depth: nat, path: Path, local: Local, later: Local)
    requires depth <= c.rules.limit && c.rules.schema != "pg_catalog" && Fair(c.order)
    requires DefineFunction(c, value, depth, path, local).Ok?
    requires Permitted(DefineFunction(c, value, depth, path, local).value) <= Permitted(later)
    ensures CheckCall(c.rules, later, Names(Get(Fields(value), "funcname"))) == None
  {
    DefineExact(c, value, depth, path, local);
    var local1 := local[NameOf(value) := true];
    var tree := BodyTree(c.rules, "CreateFunctionStmt", value);
    if tree.Some? {
      WalkSound(c, tree.value, depth + 1, path + [Body], local1);
    }
    hide OptionsLegal, TextOf, LanguageOr, CheckField, Walk, AllAllowed;
    assert NameOf(value) in Permitted(DefineFunction(c, value, depth, path, local).value);
  }
}
