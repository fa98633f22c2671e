/**
 What the order of visiting decides, without any order. Two readings of a tree settle it. Under
 the worst reading every entry of an object is on its own: it is taken as if it came first.
 Under the best reading the entries of an object are taken in rounds: whatever is acceptable
 goes in, what it defines is permitted from the next round on, until nothing is left or nothing
 is acceptable. Elements of arrays, and a text body before what follows it, come in the order of
 the source under both.
 */
module PolicyReadings {
  import opened Policy
  import opened PolicyMeaning
  import opened PolicySoundness
  import opened PolicyOrder

  datatype Reading = Worst | Best

  ghost predicate Reads(c: Rules, how: Reading, v: Json, depth: nat, local: Local)
    requires depth <= c.limit
    decreases c.limit + 1 - depth, v, 1, 0
  {
    match v
    case JArray(_) => ReadsAll(c, how, v, Elements(v), depth, local)
    case JObject(fields) =>
      (match how
       case Worst => forall k <- fields :: ReadsKid(c, how, Field(k, fields[k]), depth, local)
       case Best => Saturates(c, v, fields.Keys, depth, local))
    case _ => true
  }

  ghost predicate ReadsAll(c: Rules, how: Reading, v: Json, kids: seq<Child>, depth: nat, local: Local)
    requires depth <= c.limit && forall kid <- kids :: ChildOf(kid, v)
    decreases c.limit + 1 - depth, v, 0, |kids|
  {
    kids == []
    || (assert ChildOf(kids[0], v);
        && ReadsKid(c, how, kids[0], depth, local)
        && ReadsAll(c, how, v, kids[1..], depth, Grow(local, Defined(KidNodes(c, kids[0], depth)))))
  }

  /** The entries that are acceptable now. */
  ghost function Ready(c: Rules, v: Json, keys: set<string>, depth: nat, local: Local): set<string>
    requires depth <= c.limit && v.JObject? && keys <= v.fields.Keys
    decreases c.limit + 1 - depth, v, 0, 2 * |keys|
  {
    set k | k in keys && ReadsKid(c, Best, Field(k, v.fields[k]), depth, local)
  }

  /** The functions that some entries of an object define. */
  ghost function DefinedIn(c: Rules, v: Json, keys: set<string>, depth: nat): set<string>
    requires depth <= c.limit && v.JObject? && keys <= v.fields.Keys
  {
    set k, name | k in keys && name in Defined(KidNodes(c, Field(k, v.fields[k]), depth)) :: name
  }

  ghost predicate Saturates(c: Rules, v: Json, keys: set<string>, depth: nat, local: Local)
    requires depth <= c.limit && v.JObject? && keys <= v.fields.Keys
    decreases c.limit + 1 - depth, v, 0, 2 * |keys| + 1
  {
    keys == {}
    || var ready := Ready(c, v, keys, depth, local);
       && ready != {}
       && (Fewer(keys, ready);
           Saturates(c, v, keys - ready, depth, Grow(local, DefinedIn(c, v, ready, depth))))
  }

  lemma Fewer(keys: set<string>, some: set<string>)
    requires some <= keys
    ensures some != {} ==> |keys - some| < |keys|
  {
    assert |keys| == |keys - some| + |some|;
  }

  /** An entry, then what it holds. */
  ghost predicate ReadsKid(c: Rules, how: Reading, kid: Child, depth: nat, local: Local)
    requires depth <= c.limit
    decreases c.limit + 1 - depth, kid.value, 2, 0
  {
    match kid
    case Element(_, value) => Reads(c, how, value, depth, local)
    case Field(key, value) =>
      && ReadsEntry(c, how, key, value, depth, local)
      && Reads(c, how, value, depth, Grow(local, Defined(EntryNodes(c, key, value, depth))))
  }

  ghost function EntryNodes(c: Rules, key: string, value: Json, depth: nat): set<Node>
    requires depth <= c.limit
  {
    {Node(key, value, depth)} + BodyNodes(c, key, value, depth)
  }

  /** The rules for one entry, and a text body under the name that is being defined. */
  ghost predicate ReadsEntry(c: Rules, how: Reading, key: string, value: Json, depth: nat, local: Local)
    requires depth <= c.limit
    decreases c.limit + 1 - depth, value, 0, 0
  {
    && FieldAllowed(c, key, value)
    && CallsAllowed(c, Permitted(local), key, value)
    && (key == "CreateFunctionStmt" ==> MayDefine(c, value, depth, local))
    && (BodyTree(c, key, value).Some? ==>
          depth < c.limit && Reads(c, how, BodyTree(c, key, value).value, depth + 1, local[NameOf(value) := true]))
  }

  /** A statement under a reading. */
  ghost predicate Accepted(c: Rules, how: Reading, sql: string, local: Local) {
    && c.parser(sql).Some?
    && |Items(Get(c.parser(sql).value, "stmts"))| == 1
    && Reads(c, how, JObject(c.parser(sql).value), 0, local)
  }

  // ----------------------------------------------------------------------- one entry

  /** One entry of the walk, in the terms of the readings. */
  lemma EntryExact(c: Checker, key: string, value: Json, depth: nat, path: Path, local: Local)
    requires depth <= c.rules.limit
    ensures CheckEntry(c, key, value, depth, path, local).Ok? <==>
            && FieldAllowed(c.rules, key, value)
            && CallsAllowed(c.rules, Permitted(local), key, value)
            && (key == "CreateFunctionStmt" ==> MayDefine(c.rules, value, depth, local))
            && (BodyTree(c.rules, key, value).Some? ==>
                  && depth < c.rules.limit
                  && Walk(c, BodyTree(c.rules, key, value).value, depth + 1, path + [Body],
                          local[NameOf(value) := true]).Ok?)
  {
    FieldExact(c.rules, key, value);
    CallsExact(c.rules, local, key, value);
    DefineExact(c, value, depth, path, local);
    hide CheckField, FieldAllowed, CallIn, CheckCall, CallAllowed, CallsAllowed, DefineFunction, Define,
      DefinitionLegal, TextOf, NameOf, Walk;
  }

  lemma GrowMore(local: Local, names: set<string>)
    ensures PermitsMore(local, Grow(local, names))
  {
  }

  /** Kids that would each be accepted first are accepted one after the other. */
  lemma {:induction false} EachFirst(c: Checker, v: Json, kids: seq<Child>, depth: nat, path: Path, local: Local)
    requires Fair(c.order) && depth <= c.rules.limit && forall kid <- kids :: ChildOf(kid, v)
    requires forall kid <- kids :: Visit(c, v, kid, depth, path, local).Ok?
    ensures WalkAll(c, v, kids, depth, path, local).Ok?
    decreases |kids|
  {
    hide Visit, PermitsMore, Grow, AllAllowed, NoConflict, KidNodes;
    if kids != [] {
      assert kids[0] in kids;
      var local1 := Visit(c, v, kids[0], depth, path, local).value;
      VisitSound(c, v, kids[0], depth, path, local);
      GrowMore(local, Defined(KidNodes(c.rules, kids[0], depth)));
      forall kid <- kids[1..] ensures Visit(c, v, kid, depth, path, local1).Ok? {
        assert kid in kids;
        VisitMonotone(c, v, kid, depth, path, local, local1);
      }
      EachFirst(c, v, kids[1..], depth, path, local1);
    }
  }

  // ------------------------------------------------------- the worst reading is enough

  lemma {:induction false} WorstWalks(c: Checker, v: Json, depth: nat, path: Path, local: Local)
    requires Fair(c.order) && depth <= c.rules.limit && Reads(c.rules, Worst, v, depth, local)
    ensures Walk(c, v, depth, path, local).Ok?
    decreases c.rules.limit + 1 - depth, v, 1, 0
  {
    var kids := Children(c, v, path);
    match v
    case JArray(_) => WorstWalksAll(c, v, kids, depth, path, local);
    case JObject(_) =>
      forall kid <- kids ensures Visit(c, v, kid, depth, path, local).Ok? {
        WorstVisits(c, v, kid, depth, path, local);
      }
      EachFirst(c, v, kids, depth, path, local);
    case _ =>
  }

  lemma {:induction false} WorstWalksAll(c: Checker, v: Json, kids: seq<Child>, depth: nat, path: Path, local: Local)
    requires Fair(c.order) && depth <= c.rules.limit && forall kid <- kids :: ChildOf(kid, v)
    requires ReadsAll(c.rules, Worst, v, kids, depth, local)
    ensures WalkAll(c, v, kids, depth, path, local).Ok?
    decreases c.rules.limit + 1 - depth, v, 0, |kids|
  {
    hide Visit, ReadsKid, KidNodes;
    if kids != [] {
      assert kids[0] in kids && ChildOf(kids[0], v);
      WorstVisits(c, v, kids[0], depth, path, local);
      VisitSound(c, v, kids[0], depth, path, local);
      WorstWalksAll(c, v, kids[1..], depth, path, Visit(c, v, kids[0], depth, path, local).value);
    }
  }

  lemma {:induction false} WorstVisits(c: Checker, v: Json, kid: Child, depth: nat, path: Path, local: Local)
    requires Fair(c.order) && depth <= c.rules.limit && ChildOf(kid, v)
    requires ReadsKid(c.rules, Worst, kid, depth, local)
    ensures Visit(c, v, kid, depth, path, local).Ok?
    decreases c.rules.limit + 1 - depth, kid.value, 2, 0
  {
    hide FieldAllowed, CallsAllowed, MayDefine, AllAllowed, NoConflict, Grow, Defined, BodyNodes, Walk, CheckEntry,
      NameOf, Fair;
    var path1 := path + [TurnOf(kid)];
    match kid
    case Element(_, value) => WorstWalks(c, value, depth, path1, local);
    case Field(key, value) =>
      if BodyTree(c.rules, key, value).Some? {
        WorstWalks(c, BodyTree(c.rules, key, value).value, depth + 1, path1 + [Body], local[NameOf(value) := true]);
      }
      EntryExact(c, key, value, depth, path1, local);
      EntrySound(c, key, value, depth, path1, local);
      WorstWalks(c, value, depth, path1, CheckEntry(c, key, value, depth, path1, local).value);
  }

  // ------------------------------------------------------ the best reading is necessary

  lemma {:induction false} WalkReads(c: Checker, v: Json, depth: nat, path: Path, local: Local)
    requires Fair(c.order) && depth <= c.rules.limit && Walk(c, v, depth, path, local).Ok?
    ensures Reads(c.rules, Best, v, depth, local)
    decreases c.rules.limit + 1 - depth, v, 1, 0
  {
    var kids := Children(c, v, path);
    match v
    case JArray(_) => WalkReadsAll(c, v, kids, depth, path, local);
    case JObject(fields) =>
      assert Lists(c.order(path, fields.Keys), fields.Keys);
      WalkSaturates(c, v, c.order(path, fields.Keys), fields.Keys, depth, path, local, local);
    case _ =>
  }

  lemma {:induction false} WalkReadsAll(c: Checker, v: Json, kids: seq<Child>, depth: nat, path: Path, local: Local)
    requires Fair(c.order) && depth <= c.rules.limit && forall kid <- kids :: ChildOf(kid, v)
    requires WalkAll(c, v, kids, depth, path, local).Ok?
    ensures ReadsAll(c.rules, Best, v, kids, depth, local)
    decreases c.rules.limit + 1 - depth, v, 0, |kids|
  {
    hide Visit, ReadsKid, KidNodes;
    if kids != [] {
      assert kids[0] in kids && ChildOf(kids[0], v);
      VisitReads(c, v, kids[0], depth, path, local);
      VisitSound(c, v, kids[0], depth, path, local);
      WalkReadsAll(c, v, kids[1..], depth, path, Visit(c, v, kids[0], depth, path, local).value);
    }
  }

  lemma {:induction false} VisitReads(c: Checker, v: Json, kid: Child, depth: nat, path: Path, local: Local)
    requires Fair(c.order) && depth <= c.rules.limit && ChildOf(kid, v)
    requires Visit(c, v, kid, depth, path, local).Ok?
    ensures ReadsKid(c.rules, Best, kid, depth, local)
    decreases c.rules.limit + 1 - depth, kid.value, 2, 0
  {
    hide FieldAllowed, CallsAllowed, MayDefine, AllAllowed, NoConflict, Grow, Defined, BodyNodes, Walk, CheckEntry,
      NameOf, Fair;
    var path1 := path + [TurnOf(kid)];
    match kid
    case Element(_, value) => WalkReads(c, value, depth, path1, local);
    case Field(key, value) =>
      EntryExact(c, key, value, depth, path1, local);
      EntrySound(c, key, value, depth, path1, local);
      WalkReads(c, value, depth, path1, CheckEntry(c, key, value, depth, path1, local).value);
      if BodyTree(c.rules, key, value).Some? {
        WalkReads(c, BodyTree(c.rules, key, value).value, depth + 1, path1 + [Body], local[NameOf(value) := true]);
      }
  }

  /** The rounds never get stuck: of the entries that are left, the one that the walk came to
      first is acceptable, because the rounds have permitted all that the walk had by then. */
  lemma {:induction false} WalkSaturates(c: Checker, v: Json, order: seq<string>, keys: set<string>, depth: nat,
                                         path: Path,
                                         local: Local, round: Local)
    requires Fair(c.order) && depth <= c.rules.limit && v.JObject? && Lists(order, v.fields.Keys)
             && keys <= v.fields.Keys
    requires WalkAll(c, v, Entries(v, order), depth, path, local).Ok?
    requires PermitsMore(Grow(local, DefinedIn(c.rules, v, v.fields.Keys - keys, depth)), round)
    ensures Saturates(c.rules, v, keys, depth, round)
    decreases c.rules.limit + 1 - depth, v, 0, |keys|
  {
    if keys != {} {
      var ready := Ready(c.rules, v, keys, depth, round);
      var k := FirstLeft(c, v, order, keys, depth, path, local, round);
      VisitReads(c, v, Field(k, v.fields[k]), depth, path, round);
      assert k in ready;
      Fewer(keys, ready);
      var round1 := Grow(round, DefinedIn(c.rules, v, ready, depth));
      NextRound(c.rules, v, keys, ready, depth, local, round);
      WalkSaturates(c, v, order, keys - ready, depth, path, local, round1);
    }
  }

  lemma NextRound(c: Rules, v: Json, keys: set<string>, ready: set<string>, depth: nat, local: Local, round: Local)
    requires depth <= c.limit && v.JObject? && ready <= keys <= v.fields.Keys
    requires PermitsMore(Grow(local, DefinedIn(c, v, v.fields.Keys - keys, depth)), round)
    ensures PermitsMore(Grow(local, DefinedIn(c, v, v.fields.Keys - (keys - ready), depth)),
                        Grow(round, DefinedIn(c, v, ready, depth)))
  {
    var before, now := DefinedIn(c, v, v.fields.Keys - keys, depth), DefinedIn(c, v, ready, depth);
    assert v.fields.Keys - (keys - ready) == (v.fields.Keys - keys) + ready;
    assert DefinedIn(c, v, v.fields.Keys - (keys - ready), depth) == before + now;
    GrowPermitsMore(Grow(local, before), round, now);
    GrowTwice(local, before, now);
  }

  /** The first entry in the order of the walk that is left is accepted under the names of the
      round. */
  lemma {:induction false} FirstLeft(c: Checker, v: Json, order: seq<string>, keys: set<string>, depth: nat, path: Path,
                                     local: Local, round: Local) returns (k: string)
    requires Fair(c.order) && depth <= c.rules.limit && v.JObject? && keys <= v.fields.Keys
    requires (forall k <- order :: k in v.fields) && exists k :: k in keys && k in order
    requires WalkAll(c, v, Entries(v, order), depth, path, local).Ok?
    requires PermitsMore(Grow(local, DefinedIn(c.rules, v, v.fields.Keys - keys, depth)), round)
    ensures k in keys && Visit(c, v, Field(k, v.fields[k]), depth, path, round).Ok?
    decreases |order|
  {
    hide Visit, PermitsMore, Grow, KidNodes, AllAllowed, NoConflict, DefinedIn, Defined, Fair;
    k := order[0];
    assert k in order;
    var kid := Field(k, v.fields[k]);
    EntriesStep(v, order);
    var others := DefinedIn(c.rules, v, v.fields.Keys - keys, depth);
    if k in keys {
      GrowMore(local, others);
      PermitsMoreTwice(local, Grow(local, others), round);
      VisitMonotone(c, v, kid, depth, path, local, round);
    } else {
      VisitSound(c, v, kid, depth, path, local);
      var mine := Defined(KidNodes(c.rules, kid, depth));
      DefinedAmong(c.rules, v, v.fields.Keys - keys, k, depth);
      assert others == mine + others;
      GrowTwice(local, mine, others);
      assert order == [k] + order[1..];
      k := FirstLeft(c, v, order[1..], keys, depth, path, Grow(local, mine), round);
    }
  }

  lemma EntriesStep(v: Json, order: seq<string>)
    requires v.JObject? && order != [] && order[0] in v.fields
    ensures Entries(v, order) != [] && Entries(v, order)[0] == Field(order[0], v.fields[order[0]])
    ensures Entries(v, order)[1..] == Entries(v, order[1..])
  {
  }

  lemma DefinedAmong(c: Rules, v: Json, keys: set<string>, k: string, depth: nat)
    requires depth <= c.limit && v.JObject? && keys <= v.fields.Keys && k in keys
    ensures Defined(KidNodes(c, Field(k, v.fields[k]), depth)) <= DefinedIn(c, v, keys, depth)
  {
    hide KidNodes, Defined;
  }

  lemma PermitsMoreTwice(a: Local, b: Local, d: Local)
    requires PermitsMore(a, b) && PermitsMore(b, d)
    ensures PermitsMore(a, d)
  {
  }
}
