/**
 The exact part that the order of visiting plays: a statement is accepted under every schedule
 exactly if the worst reading accepts it, and under some schedule exactly if the best one does.
 What is missing from PolicyReadings are schedules that do as badly, or as well, as a reading.
 */
module PolicySchedules {
  import opened Wrappers
  import opened Policy
  import opened PolicyMeaning
  import opened PolicySoundness
  import opened PolicyOrder
  import opened PolicyReadings

  // ------------------------------------------------------------- schedules and their parts

  predicate Under(p: Path, path: Path) {
    |path| <= |p| && p[..|path|] == path
  }

  /** Two schedules agree on what is at or below a path. */
  ghost predicate Agree(order: Schedule, order': Schedule, path: Path) {
    forall p, keys :: Under(p, path) ==> order(p, keys) == order'(p, keys)
  }

  lemma AgreeBelow(order: Schedule, order': Schedule, path: Path, below: Path)
    requires Agree(order, order', path) && Under(below, path)
    ensures Agree(order, order', below)
  {
    forall p, keys | Under(p, below) ensures order(p, keys) == order'(p, keys) {
      assert p[..|path|] == p[..|below|][..|path|];
    }
  }

  /** The outcome below a path depends on the schedule below that path only. */
  lemma {:induction false} WalkFrame(c: Checker, c': Checker, v: Json, depth: nat, path: Path, local: Local)
    requires c'.rules == c.rules && Agree(c.order, c'.order, path) && depth <= c.rules.limit
    ensures Walk(c', v, depth, path, local) == Walk(c, v, depth, path, local)
    decreases c.rules.limit + 1 - depth, v, 1, 0
  {
    assert Under(path, path);
    WalkAllFrame(c, c', v, Children(c, v, path), depth, path, local);
  }

  lemma {:induction false} WalkAllFrame(c: Checker, c': Checker, v: Json, kids: seq<Child>, depth: nat, path: Path,
                                        local: Local)
    requires c'.rules == c.rules && depth <= c.rules.limit && forall kid <- kids :: ChildOf(kid, v)
    requires forall kid <- kids :: Agree(c.order, c'.order, path + [TurnOf(kid)])
    ensures WalkAll(c', v, kids, depth, path, local) == WalkAll(c, v, kids, depth, path, local)
    decreases c.rules.limit + 1 - depth, v, 0, |kids|
  {
    hide Visit, Agree;
    if kids != [] {
      assert kids[0] in kids && ChildOf(kids[0], v);
      VisitFrame(c, c', v, kids[0], depth, path, local);
      match Visit(c, v, kids[0], depth, path, local)
      case Err(_) =>
      case Ok(local1) =>
        assert forall kid <- kids[1..] :: kid in kids;
        WalkAllFrame(c, c', v, kids[1..], depth, path, local1);
    }
  }

  lemma {:induction false} VisitFrame(c: Checker, c': Checker, v: Json, kid: Child, depth: nat, path: Path,
                                      local: Local)
    requires c'.rules == c.rules && depth <= c.rules.limit && ChildOf(kid, v)
    requires Agree(c.order, c'.order, path + [TurnOf(kid)])
    ensures Visit(c', v, kid, depth, path, local) == Visit(c, v, kid, depth, path, local)
    decreases c.rules.limit + 1 - depth, kid.value, 2, 0
  {
    var path1 := path + [TurnOf(kid)];
    match kid
    case Element(_, value) => WalkFrame(c, c', value, depth, path1, local);
    case Field(key, value) =>
      EntryFrame(c, c', key, value, depth, path1, local);
      match CheckEntry(c, key, value, depth, path1, local)
      case Err(_) =>
      case Ok(local1) => WalkFrame(c, c', value, depth, path1, local1);
  }

  lemma {:induction false} EntryFrame(c: Checker, c': Checker, key: string, value: Json, depth: nat, path: Path,
                                      local: Local)
    requires c'.rules == c.rules && depth <= c.rules.limit && Agree(c.order, c'.order, path)
    ensures CheckEntry(c', key, value, depth, path, local) == CheckEntry(c, key, value, depth, path, local)
    decreases c.rules.limit + 1 - depth, value, 1, 0
  {
    hide CheckField, CallIn, CheckCall, DefineFunction;
    if key == "CreateFunctionStmt" {
      DefineFrame(c, c', value, depth, path, local);
    }
  }

  lemma {:induction false} DefineFrame(c: Checker, c': Checker, value: Json, depth: nat, path: Path, local: Local)
    requires c'.rules == c.rules && depth <= c.rules.limit && Agree(c.order, c'.order, path)
    ensures DefineFunction(c', value, depth, path, local) == DefineFunction(c, value, depth, path, local)
    decreases c.rules.limit + 1 - depth, value, 0, 0
  {
    hide Define, Agree, Walk;
    var parts := Names(Get(Fields(value), "funcname"));
    if Define(c.rules, Fields(value)).Ok? && parts != [] && depth < c.rules.limit {
      var body := Define(c.rules, Fields(value)).value.body;
      var local1 := local[parts[|parts| - 1] := true];
      if c.rules.parser(body).Some? {
        AgreeBelow(c.order, c'.order, path, path + [Body]);
        WalkFrame(c, c', JObject(c.rules.parser(body).value), depth + 1, path + [Body], local1);
      }
      assert Parse(c', body, false, depth + 1, path + [Body], local1)
          == Parse(c, body, false, depth + 1, path + [Body], local1);
    }
  }

  /** Some list of a set. */
  ghost function ListOf(keys: set<string>): (order: seq<string>)
    ensures Lists(order, keys)
  {
    if keys == {} then []
    else
      var k :| k in keys;
      var rest := ListOf(keys - {k});
      ListsFront(k, rest, keys);
      [k] + rest
  }

  lemma ListsFront(k: string, rest: seq<string>, keys: set<string>)
    requires k in keys && Lists(rest, keys - {k})
    ensures Lists([k] + rest, keys)
  {
    var order := [k] + rest;
    forall x <- keys ensures x in order {
      if x != k {
        assert x in keys - {k};
      }
    }
  }

  ghost function AnyOrder(): (order: Schedule)
    ensures Fair(order)
  {
    (path, keys) => ListOf(keys)
  }

  /** A schedule that visits one object in a given order. */
  ghost function OrderAt(order: Schedule, path: Path, list: seq<string>): (order': Schedule)
    requires Fair(order)
    ensures Fair(order')
    ensures forall keys | Lists(list, keys) :: order'(path, keys) == list
    ensures forall turn: Turn :: Agree(order, order', path + [turn])
  {
    (p, keys) => if p == path && Lists(list, keys) then list else order(p, keys)
  }

  /** One schedule below a path, another one everywhere else. */
  ghost function Paste(below: Schedule, order: Schedule, path: Path): (order': Schedule)
    requires Fair(below) && Fair(order)
    ensures Fair(order') && Agree(below, order', path)
  {
    (p, keys) => if Under(p, path) then below(p, keys) else order(p, keys)
  }

  lemma PasteElsewhere(below: Schedule, order: Schedule, path: Path, turn: Turn, other: Turn)
    requires Fair(below) && Fair(order) && turn != other
    ensures Agree(order, Paste(below, order, path + [turn]), path + [other])
  {
    forall p, keys | Under(p, path + [other]) ensures order(p, keys) == Paste(below, order, path + [turn])(p, keys) {
      assert p[..|path| + 1][|path|] == other;
    }
  }

  // ------------------------------------------------------------ as badly as the worst reading

  lemma {:induction false} WorstFails(c: Rules, v: Json, depth: nat, path: Path, local: Local) returns (order: Schedule)
    requires depth <= c.limit && !Reads(c, Worst, v, depth, local)
    ensures Fair(order) && Walk(Checker(c, order), v, depth, path, local).Err?
    decreases c.limit + 1 - depth, v, 1, 0
  {
    match v
    case JArray(_) => order := WorstFailsAll(c, v, Elements(v), depth, path, local);
    case JObject(fields) =>
      var k :| k in fields && !ReadsKid(c, Worst, Field(k, fields[k]), depth, local);
      var kid := Field(k, fields[k]);
      hide Visit, ReadsKid, Agree, Reads, Fair, OrderAt;
      var order0 := WorstFailsKid(c, v, kid, depth, path, local);
      ListsFront(k, ListOf(fields.Keys - {k}), fields.Keys);
      order := OrderAt(order0, path, [k] + ListOf(fields.Keys - {k}));
      VisitFrame(Checker(c, order0), Checker(c, order), v, kid, depth, path, local);
      hide Lists;
      assert Children(Checker(c, order), v, path)[0] == kid;
    case _ =>
  }

  lemma {:induction false} WorstFailsAll(c: Rules, v: Json, kids: seq<Child>, depth: nat, path: Path, local: Local)
    returns (order: Schedule)
    requires depth <= c.limit && forall kid <- kids :: ChildOf(kid, v)
    requires !ReadsAll(c, Worst, v, kids, depth, local)
    ensures Fair(order) && WalkAll(Checker(c, order), v, kids, depth, path, local).Err?
    decreases c.limit + 1 - depth, v, 0, |kids|
  {
    hide Visit, ReadsKid, KidNodes;
    assert kids[0] in kids && ChildOf(kids[0], v);
    if ReadsKid(c, Worst, kids[0], depth, local) {
      order := WorstFailsAll(c, v, kids[1..], depth, path, Grow(local, Defined(KidNodes(c, kids[0], depth))));
      WorstVisits(Checker(c, order), v, kids[0], depth, path, local);
      VisitSound(Checker(c, order), v, kids[0], depth, path, local);
    } else {
      order := WorstFailsKid(c, v, kids[0], depth, path, local);
    }
  }

  lemma {:induction false} WorstFailsKid(c: Rules, v: Json, kid: Child, depth: nat, path: Path, local: Local)
    returns (order: Schedule)
    requires depth <= c.limit && ChildOf(kid, v) && !ReadsKid(c, Worst, kid, depth, local)
    ensures Fair(order) && Visit(Checker(c, order), v, kid, depth, path, local).Err?
    decreases c.limit + 1 - depth, kid.value, 2, 0
  {
    var path1 := path + [TurnOf(kid)];
    match kid
    case Element(_, value) => order := WorstFails(c, value, depth, path1, local);
    case Field(key, value) =>
      if !ReadsEntry(c, Worst, key, value, depth, local) {
        order := WorstFailsEntry(c, key, value, depth, path1, local);
      } else {
        var local1 := Grow(local, Defined(EntryNodes(c, key, value, depth)));
        order := WorstFails(c, value, depth, path1, local1);
        EntrySound(Checker(c, order), key, value, depth, path1, local);
      }
  }

  lemma {:induction false} WorstFailsEntry(c: Rules, key: string, value: Json, depth: nat, path: Path, local: Local)
    returns (order: Schedule)
    requires depth <= c.limit && !ReadsEntry(c, Worst, key, value, depth, local)
    ensures Fair(order) && CheckEntry(Checker(c, order), key, value, depth, path, local).Err?
    decreases c.limit + 1 - depth, value, 0, 0
  {
    hide CheckEntry, FieldAllowed, CallsAllowed, MayDefine, BodyTree, NameOf, Walk, Reads, Fair;
    order := AnyOrder();
    var tree, local1 := BodyTree(c, key, value), local[NameOf(value) := true];
    if tree.Some? && depth < c.limit && !Reads(c, Worst, tree.value, depth + 1, local1) {
      order := WorstFails(c, tree.value, depth + 1, path + [Body], local1);
    }
    EntryExact(Checker(c, order), key, value, depth, path, local);
  }

  // ------------------------------------------------------------- as well as the best reading

  lemma {:induction false} BestWalks(c: Rules, v: Json, depth: nat, path: Path, local: Local) returns (order: Schedule)
    requires depth <= c.limit && Reads(c, Best, v, depth, local)
    ensures Fair(order) && Walk(Checker(c, order), v, depth, path, local).Ok?
    decreases c.limit + 1 - depth, v, 1, 0
  {
    match v
    case JArray(_) =>
      InOrder(c, v, Elements(v), depth, local);
      order := BestWalksAll(c, v, Elements(v), depth, path, local);
    case JObject(fields) =>
      var list := RoundsInOrder(c, v, fields.Keys, depth, local);
      EntriesDistinct(v, list);
      var order0 := BestWalksAll(c, v, Entries(v, list), depth, path, local);
      order := OrderAt(order0, path, list);
      WalkAllFrame(Checker(c, order0), Checker(c, order), v, Entries(v, list), depth, path, local);
    case _ => order := AnyOrder();
  }

  /** Each of the kids is acceptable by the time it comes, under fewer names even. */
  ghost predicate Comes(c: Rules, kids: seq<Child>, depth: nat, local: Local)
    requires depth <= c.limit
  {
    kids == []
    || (&& (exists fewer :: PermitsMore(fewer, local) && ReadsKid(c, Best, kids[0], depth, fewer))
        && Comes(c, kids[1..], depth, Grow(local, Defined(KidNodes(c, kids[0], depth)))))
  }

  lemma {:induction false} BestWalksAll(c: Rules, v: Json, kids: seq<Child>, depth: nat, path: Path, local: Local)
    returns (order: Schedule)
    requires depth <= c.limit && forall kid <- kids :: ChildOf(kid, v)
    requires forall i, j | 0 <= i < j < |kids| :: TurnOf(kids[i]) != TurnOf(kids[j])
    requires Comes(c, kids, depth, local)
    ensures Fair(order) && WalkAll(Checker(c, order), v, kids, depth, path, local).Ok?
    decreases c.limit + 1 - depth, v, 0, |kids|
  {
    hide Visit, ReadsKid, KidNodes, PermitsMore, Agree, Fair, Under;
    if kids == [] {
      order := AnyOrder();
    } else {
      var kid, turn := kids[0], TurnOf(kids[0]);
      assert kid in kids && ChildOf(kid, v);
      var local1 := Grow(local, Defined(KidNodes(c, kid, depth)));
      var fewer :| PermitsMore(fewer, local) && ReadsKid(c, Best, kid, depth, fewer);
      var first := BestVisits(c, v, kid, depth, path, fewer);
      var rest := BestWalksAll(c, v, kids[1..], depth, path, local1);
      order := Paste(first, rest, path + [turn]);
      VisitFrame(Checker(c, first), Checker(c, order), v, kid, depth, path, fewer);
      VisitMonotone(Checker(c, order), v, kid, depth, path, fewer, local);
      VisitSound(Checker(c, order), v, kid, depth, path, local);
      forall other <- kids[1..] ensures Agree(rest, order, path + [TurnOf(other)]) {
        PasteElsewhere(first, rest, path, turn, TurnOf(other));
      }
      WalkAllFrame(Checker(c, rest), Checker(c, order), v, kids[1..], depth, path, local1);
    }
  }

  lemma {:induction false} BestVisits(c: Rules, v: Json, kid: Child, depth: nat, path: Path, local: Local)
    returns (order: Schedule)
    requires depth <= c.limit && ChildOf(kid, v) && ReadsKid(c, Best, kid, depth, local)
    ensures Fair(order) && Visit(Checker(c, order), v, kid, depth, path, local).Ok?
    decreases c.limit + 1 - depth, kid.value, 2, 0
  {
    var path1 := path + [TurnOf(kid)];
    match kid
    case Element(_, value) => order := BestWalks(c, value, depth, path1, local);
    case Field(key, value) =>
      var local1 := Grow(local, Defined(EntryNodes(c, key, value, depth)));
      var order1 := BestWalks(c, value, depth, path1, local1);
      order := order1;
      var tree := BodyTree(c, key, value);
      if tree.Some? {
        var body := BestWalks(c, tree.value, depth + 1, path1 + [Body], local[NameOf(value) := true]);
        order := Paste(body, order1, path1 + [Body]);
        WalkFrame(Checker(c, body), Checker(c, order), tree.value, depth + 1, path1 + [Body],
                  local[NameOf(value) := true]);
        ValueFrame(c, body, order1, value, depth, path1, local1);
      }
      EntryExact(Checker(c, order), key, value, depth, path1, local);
      EntrySound(Checker(c, order), key, value, depth, path1, local);
  }

  /** A schedule for the text body does not reach the fields beside it. */
  lemma ValueFrame(c: Rules, body: Schedule, order: Schedule, v: Json, depth: nat, path: Path, local: Local)
    requires Fair(body) && Fair(order) && depth <= c.limit
    ensures Walk(Checker(c, Paste(body, order, path + [Body])), v, depth, path, local)
         == Walk(Checker(c, order), v, depth, path, local)
  {
    var order' := Paste(body, order, path + [Body]);
    var kids := Children(Checker(c, order), v, path);
    assert !Under(path, path + [Body]);
    assert kids == Children(Checker(c, order'), v, path);
    hide Paste;
    forall kid <- kids ensures Agree(order, order', path + [TurnOf(kid)]) {
      PasteElsewhere(body, order, path, Body, TurnOf(kid));
    }
    hide Agree, Fair;
    WalkAllFrame(Checker(c, order), Checker(c, order'), v, kids, depth, path, local);
  }

  /** The elements of an array come as they are read. */
  lemma {:induction false} InOrder(c: Rules, v: Json, kids: seq<Child>, depth: nat, local: Local)
    requires depth <= c.limit && (forall kid <- kids :: ChildOf(kid, v)) && ReadsAll(c, Best, v, kids, depth, local)
    ensures Comes(c, kids, depth, local)
    decreases |kids|
  {
    if kids != [] {
      assert PermitsMore(local, local);
      InOrder(c, v, kids[1..], depth, Grow(local, Defined(KidNodes(c, kids[0], depth))));
    }
  }

  /** The entries of an object come round by round. */
  lemma {:induction false} RoundsInOrder(c: Rules, v: Json, keys: set<string>, depth: nat, local: Local)
    returns (list: seq<string>)
    requires depth <= c.limit && v.JObject? && keys <= v.fields.Keys && Saturates(c, v, keys, depth, local)
    ensures Lists(list, keys) && Comes(c, Entries(v, list), depth, local)
    decreases |keys|
  {
    if keys == {} {
      list := [];
    } else {
      var ready := Ready(c, v, keys, depth, local);
      Fewer(keys, ready);
      var rest := RoundsInOrder(c, v, keys - ready, depth, Grow(local, DefinedIn(c, v, ready, depth)));
      assert PermitsMore(local, local);
      RoundComes(c, v, ListOf(ready), ready, rest, depth, local, local);
      list := ListOf(ready) + rest;
      ListsUnion(ListOf(ready), ready, rest, keys);
    }
  }

  lemma ListsUnion(first: seq<string>, some: set<string>, rest: seq<string>, keys: set<string>)
    requires some <= keys && Lists(first, some) && Lists(rest, keys - some)
    ensures Lists(first + rest, keys)
  {
  }

  /** One round: all its entries are acceptable under the names at its beginning. */
  lemma {:induction false} RoundComes(c: Rules, v: Json, list: seq<string>, keys: set<string>, rest: seq<string>,
                                      depth: nat,
                                      round: Local, local: Local)
    requires depth <= c.limit && v.JObject? && keys <= v.fields.Keys && Lists(list, keys) && PermitsMore(round, local)
    requires forall k <- keys :: ReadsKid(c, Best, Field(k, v.fields[k]), depth, round)
    requires Comes(c, Entries(v, rest), depth, Grow(local, DefinedIn(c, v, keys, depth)))
    ensures Comes(c, Entries(v, list + rest), depth, local)
    decreases |list|
  {
    if list == [] {
      assert keys == {} && list + rest == rest;
      assert DefinedIn(c, v, keys, depth) == {} && Grow(local, {}) == local;
    } else {
      var k := list[0];
      var kid := Field(k, v.fields[k]);
      var mine := Defined(KidNodes(c, kid, depth));
      ListBack(list, keys);
      EntriesFront(v, list, rest);
      hide KidNodes, ReadsKid, PermitsMore, Grow, Entries, Defined, Lists, DefinedIn;
      DefinedSplit(c, v, keys, k, depth);
      GrowTwice(local, mine, DefinedIn(c, v, keys - {k}, depth));
      GrowMore(local, mine);
      PermitsMoreTwice(round, local, Grow(local, mine));
      RoundComes(c, v, list[1..], keys - {k}, rest, depth, round, Grow(local, mine));
    }
  }

  lemma {:induction false} ListLength(list: seq<string>, keys: set<string>)
    requires Lists(list, keys)
    ensures |list| == |keys|
  {
    if list == [] {
      assert keys == {};
    } else {
      ListBack(list, keys);
      ListLength(list[1..], keys - {list[0]});
    }
  }

  lemma ListBack(list: seq<string>, keys: set<string>)
    requires list != [] && Lists(list, keys)
    ensures list[0] in keys && Lists(list[1..], keys - {list[0]})
  {
    forall k <- keys - {list[0]} ensures k in list[1..] {
      assert k in list;
    }
  }

  lemma EntriesFront(v: Json, list: seq<string>, rest: seq<string>)
    requires v.JObject? && list != [] && list[0] in v.fields
    ensures var kids := Entries(v, list + rest);
            kids != [] && kids[0] == Field(list[0], v.fields[list[0]]) && kids[1..] == Entries(v, list[1..] + rest)
  {
    assert (list + rest)[0] == list[0] && (list + rest)[1..] == list[1..] + rest;
    EntriesStep(v, list + rest);
  }

  lemma DefinedSplit(c: Rules, v: Json, keys: set<string>, k: string, depth: nat)
    requires depth <= c.limit && v.JObject? && keys <= v.fields.Keys && k in keys
    ensures DefinedIn(c, v, keys, depth)
         == Defined(KidNodes(c, Field(k, v.fields[k]), depth)) + DefinedIn(c, v, keys - {k}, depth)
  {
    hide KidNodes, Defined;
  }

  // ------------------------------------------------------------------------ the decision

  /** Accepted whatever the order, exactly if accepted under the worst reading. */
  lemma AlwaysAccepted(c: Rules, sql: string, local: Local)
    ensures (forall order | Fair(order) :: Check(Checker(c, order), sql, local) == None) <==>
              Accepted(c, Worst, sql, local)
  {
    var any := AnyOrder();
    if c.parser(sql).Some? && |Items(Get(c.parser(sql).value, "stmts"))| == 1 {
      var tree := JObject(c.parser(sql).value);
      if Reads(c, Worst, tree, 0, local) {
        forall order | Fair(order) ensures Check(Checker(c, order), sql, local) == None {
          WorstWalks(Checker(c, order), tree, 0, [], local);
        }
      } else {
        var order := WorstFails(c, tree, 0, [], local);
        assert Check(Checker(c, order), sql, local) != None;
      }
    } else {
      assert Check(Checker(c, any), sql, local) != None;
    }
  }

  /** Accepted in some order, exactly if accepted under the best reading. */
  lemma SometimesAccepted(c: Rules, sql: string, local: Local)
    ensures (exists order :: Fair(order) && Check(Checker(c, order), sql, local) == None) <==>
              Accepted(c, Best, sql, local)
  {
    if Accepted(c, Best, sql, local) {
      var order := BestWalks(c, JObject(c.parser(sql).value), 0, [], local);
      assert Check(Checker(c, order), sql, local) == None;
    }
    forall order | Fair(order) && Check(Checker(c, order), sql, local) == None ensures Accepted(c, Best, sql, local) {
      WalkReads(Checker(c, order), JObject(c.parser(sql).value), 0, [], local);
    }
  }

  /** The decision is the same under all schedules, exactly if the worst reading accepts what the
      best one accepts. */
  lemma DecisionIgnoresOrder(c: Rules, sql: string, local: Local)
    ensures (forall order, order' | Fair(order) && Fair(order') ::
               Check(Checker(c, order), sql, local) == None <==> Check(Checker(c, order'), sql, local) == None) <==>
            (Accepted(c, Best, sql, local) ==> Accepted(c, Worst, sql, local))
  {
    AlwaysAccepted(c, sql, local);
    SometimesAccepted(c, sql, local);
    var any := AnyOrder();
    hide Accepted, Check, Fair;
  }
}
