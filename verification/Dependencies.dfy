/**
 The check before a cascade drop: the recursive query over the dependency catalog, evaluated
 the way PostgreSQL evaluates WITH RECURSIVE ... UNION (section 7.8.2 of its documentation),
 and what an empty answer says about what DROP SCHEMA ... CASCADE can reach.
 */
module Dependencies {
  import opened Wrappers

  /** An object's class and number. */
  datatype Object = Object(classid: nat, objid: nat)

  /** A row of pg_depend: `dependent` depends on `referenced`; `internally` for deptype 'i'. */
  datatype Depend = Depend(dependent: Object, referenced: Object, internally: bool)

  datatype Edge = Edge(source: Object, target: Object)

  /** The `edges` of the query: from what is referenced to what depends on it, and for
      internal dependencies back again. */
  function Edges(catalog: set<Depend>): set<Edge> {
    (set d | d in catalog :: Edge(d.referenced, d.dependent))
    + (set d | d in catalog && d.internally :: Edge(d.dependent, d.referenced))
  }

  /** One evaluation of the recursive term on a working table. */
  function Joined(edges: set<Edge>, working: set<Object>): set<Object> {
    set e | e in edges && e.source in working :: e.target
  }

  function Targets(edges: set<Edge>): set<Object> {
    set e | e in edges :: e.target
  }

  /** The evaluation: the rows of the working table go into the result; the recursive term
      runs on them; what is new becomes the next working table; until that is empty. */
  function Evaluate(edges: set<Edge>, result: set<Object>, working: set<Object>): set<Object>
    decreases Targets(edges) - result, working
  {
    if working == {} then result
    else
      var added := Joined(edges, working) - result;
      if added == {} then result
      else
        assert forall o <- added :: o in Targets(edges) - result && o !in Targets(edges) - (result + added);
        Evaluate(edges, result + added, added)
  }

  // ------------------------------------------------------------------------ reachability

  /** A chain of edges. */
  ghost predicate Chain(edges: set<Edge>, p: seq<Object>) {
    |p| > 0 && forall i | 0 <= i < |p| - 1 :: Edge(p[i], p[i + 1]) in edges
  }

  ghost predicate Reachable(edges: set<Edge>, start: set<Object>, o: Object) {
    exists p :: Chain(edges, p) && p[0] in start && p[|p| - 1] == o
  }

  lemma ReachableStep(edges: set<Edge>, start: set<Object>, o: Object, o': Object)
    requires Reachable(edges, start, o) && Edge(o, o') in edges
    ensures Reachable(edges, start, o')
  {
    var p :| Chain(edges, p) && p[0] in start && p[|p| - 1] == o;
    var p' := p + [o'];
    forall i | 0 <= i < |p'| - 1 ensures Edge(p'[i], p'[i + 1]) in edges {
      if i < |p| - 1 {
        assert Edge(p[i], p[i + 1]) in edges;
      }
    }
    assert Chain(edges, p') && p'[0] in start && p'[|p'| - 1] == o';
  }

  lemma ReachableStart(edges: set<Edge>, start: set<Object>, o: Object)
    requires o in start
    ensures Reachable(edges, start, o)
  {
    assert Chain(edges, [o]) && [o][0] in start;
  }

  ghost predicate Closed(edges: set<Edge>, objects: set<Object>) {
    forall e <- edges :: e.source in objects ==> e.target in objects
  }

  lemma {:induction false} ChainStaysInside(edges: set<Edge>, objects: set<Object>, p: seq<Object>)
    requires Closed(edges, objects) && Chain(edges, p) && p[0] in objects
    ensures p[|p| - 1] in objects
    decreases |p|
  {
    if |p| > 1 {
      assert Edge(p[0], p[1]) in edges;
      assert Chain(edges, p[1..]) by {
        forall i | 0 <= i < |p[1..]| - 1 ensures Edge(p[1..][i], p[1..][i + 1]) in edges {
          assert Edge(p[i + 1], p[i + 2]) in edges;
        }
      }
      ChainStaysInside(edges, objects, p[1..]);
    }
  }

  /** What a step of the evaluation relies on: every row of the result is reachable, and every
      edge that leaves it without entering it starts in the working table. */
  ghost predicate Explored(edges: set<Edge>, start: set<Object>, result: set<Object>, working: set<Object>) {
    && start <= result && working <= result
    && (forall o <- result :: Reachable(edges, start, o))
    && (forall e <- edges :: e.source in result && e.source !in working ==> e.target in result)
  }

  lemma {:induction false} EvaluateExact(edges: set<Edge>, start: set<Object>, result: set<Object>,
                                         working: set<Object>)
    requires Explored(edges, start, result, working)
    ensures forall o :: o in Evaluate(edges, result, working) <==> Reachable(edges, start, o)
    decreases Targets(edges) - result, working
  {
    var added := Joined(edges, working) - result;
    RoundExplores(edges, start, result, working);
    hide Reachable, Joined;
    if working == {} || added == {} {
      ClosedIsAll(edges, start, result);
    } else {
      assert forall o <- added :: o in Targets(edges) - result && o !in Targets(edges) - (result + added);
      EvaluateExact(edges, start, result + added, added);
    }
  }

  /** One round: what is new is reachable, and its edges are the only ones still to follow. */
  lemma RoundExplores(edges: set<Edge>, start: set<Object>, result: set<Object>, working: set<Object>)
    requires Explored(edges, start, result, working)
    ensures var added := Joined(edges, working) - result;
            Explored(edges, start, result + added, added) && added <= Targets(edges)
  {
    var added := Joined(edges, working) - result;
    forall e <- edges ensures e.source in working ==> e.target in result + added {
      assert e.source in working ==> e.target in Joined(edges, working);
    }
    forall o <- added ensures Reachable(edges, start, o) && o in Targets(edges) {
      var e :| e in edges && e.source in working && e.target == o;
      ReachableStep(edges, start, e.source, o);
    }
  }

  lemma ClosedIsAll(edges: set<Edge>, start: set<Object>, result: set<Object>)
    requires start <= result && Closed(edges, result) && forall o <- result :: Reachable(edges, start, o)
    ensures forall o :: o in result <==> Reachable(edges, start, o)
  {
    forall o | Reachable(edges, start, o) ensures o in result {
      var p :| Chain(edges, p) && p[0] in start && p[|p| - 1] == o;
      ChainStaysInside(edges, result, p);
    }
  }

  /** On any finite dependency graph, cycles included, the query ends with exactly the objects
      that can be reached from the schema. */
  lemma AffectedExact(catalog: set<Depend>, start: set<Object>)
    ensures forall o :: o in Evaluate(Edges(catalog), start, start) <==> Reachable(Edges(catalog), start, o)
  {
    forall o <- start ensures Reachable(Edges(catalog), start, o) {
      ReachableStart(Edges(catalog), start, o);
    }
    EvaluateExact(Edges(catalog), start, start, start);
  }

  // --------------------------------------------------------------------------- the check

  /** pg_identify_object: the schema an object is in, if it is in one. */
  type Identify = Object -> Option<string>

  /** `LIKE 'pg_toast%'`, in which the underscore stands for any one character. */
  predicate LikeToast(s: string) {
    |s| >= 8 && s[..2] == "pg" && s[3..8] == "toast"
  }

  /** Objects the cleanup may touch: those of the schema itself, toast schemas, and the
      schemaless classes that belong to their tables. */
  predicate Exempt(o: Object, identify: Identify, schema: string, local: set<nat>) {
    match identify(o)
    case Some(s) => s == schema || LikeToast(s)
    case None => o.classid in local
  }

  /** The three answers of `checkDependencies`. */
  datatype Answer = Clear | Affects(object: Object) | Error

  /** `checkDependencies`: an error of the query itself, no row, or some row. */
  predicate Answers(catalog: set<Depend>, start: set<Object>, identify: Identify, schema: string, local: set<nat>,
                    a: Answer) {
    match a
    case Error => true
    case Clear => forall o <- Evaluate(Edges(catalog), start, start) :: Exempt(o, identify, schema, local)
    case Affects(o) => o in Evaluate(Edges(catalog), start, start) && !Exempt(o, identify, schema, local)
  }

  /** What dropping the schema with CASCADE removes: the schema, and then one object after the
      other, each because it depends on one that goes, or because one that goes is an internal
      part of it. */
  ghost predicate Cascade(catalog: set<Depend>, start: set<Object>, dropped: seq<Object>) {
    forall i | 0 <= i < |dropped| ::
      || dropped[i] in start
      || exists j, d | 0 <= j < i && d in catalog :: Justifies(d, dropped[j], dropped[i])
  }

  predicate Justifies(d: Depend, gone: Object, goes: Object) {
    || (d.referenced == gone && d.dependent == goes)
    || (d.internally && d.dependent == gone && d.referenced == goes)
  }

  lemma {:induction false} CascadeIsReachable(catalog: set<Depend>, start: set<Object>, dropped: seq<Object>, i: nat)
    requires Cascade(catalog, start, dropped) && i < |dropped|
    ensures Reachable(Edges(catalog), start, dropped[i])
    decreases i
  {
    if dropped[i] in start {
      ReachableStart(Edges(catalog), start, dropped[i]);
    } else {
      var j, d :| 0 <= j < i && d in catalog && Justifies(d, dropped[j], dropped[i]);
      CascadeIsReachable(catalog, start, dropped, j);
      assert Edge(dropped[j], dropped[i]) in Edges(catalog);
      ReachableStep(Edges(catalog), start, dropped[j], dropped[i]);
    }
  }

  /** A schema whose name begins with pg, any one character, and toast. */
  ghost predicate IsToast(s: string) {
    exists any: char, rest: string :: s == "pg" + [any] + ("toast" + rest)
  }

  lemma LikeToastExact(s: string)
    ensures LikeToast(s) <==> IsToast(s)
  {
    if LikeToast(s) {
      assert s == "pg" + [s[2]] + ("toast" + s[8..]);
    }
    forall any: char, rest: string | s == "pg" + [any] + ("toast" + rest) ensures LikeToast(s) {
      assert s[..2] == "pg";
      assert s[3..8] == "toast";
    }
  }

  /** An object that belongs to the islet: it lies in its schema or in a toast schema, or it lies in
      none and is of a class that goes with tables. */
  ghost predicate Belongs(o: Object, identify: Identify, schema: string, local: set<nat>) {
    && (forall s: string :: identify(o) == Some(s) ==> s == schema || IsToast(s))
    && (identify(o) == None ==> o.classid in local)
  }

  lemma ExemptExact(o: Object, identify: Identify, schema: string, local: set<nat>)
    ensures Exempt(o, identify, schema, local) <==> Belongs(o, identify, schema, local)
  {
    match identify(o)
    case None =>
    case Some(s) => LikeToastExact(s);
  }

  /** A clear answer means that whatever a cascade drop removes belongs to the islet. */
  lemma ClearMeansContained(catalog: set<Depend>, start: set<Object>, identify: Identify, schema: string,
                            local: set<nat>, dropped: seq<Object>)
    requires Answers(catalog, start, identify, schema, local, Clear) && Cascade(catalog, start, dropped)
    ensures forall i | 0 <= i < |dropped| :: Belongs(dropped[i], identify, schema, local)
  {
    AffectedExact(catalog, start);
    forall i | 0 <= i < |dropped| ensures Belongs(dropped[i], identify, schema, local) {
      CascadeIsReachable(catalog, start, dropped, i);
      ExemptExact(dropped[i], identify, schema, local);
    }
  }

  /** So nothing of another islet is ever removed. */
  lemma OtherIsletsAreSafe(catalog: set<Depend>, start: set<Object>, identify: Identify, id: string, local: set<nat>,
                           dropped: seq<Object>, other: string)
    requires Answers(catalog, start, identify, "pgislet_i_" + id, local, Clear) && Cascade(catalog, start, dropped)
    requires other != id
    ensures forall o <- dropped :: identify(o) != Some("pgislet_i_" + other)
  {
    var mine, theirs := "pgislet_i_" + id, "pgislet_i_" + other;
    assert mine[10..] == id && theirs[10..] == other;
    assert theirs[3..8] == "slet_";
    LikeToastExact(theirs);
    ClearMeansContained(catalog, start, identify, mine, local, dropped);
  }

  lemma {:induction false} ChainCascades(catalog: set<Depend>, start: set<Object>, p: seq<Object>)
    requires Chain(Edges(catalog), p) && p[0] in start
    ensures Cascade(catalog, start, p)
  {
    forall i | 0 <= i < |p|
      ensures p[i] in start || exists j, d | 0 <= j < i && d in catalog :: Justifies(d, p[j], p[i])
    {
      if i > 0 {
        var e := Edge(p[i - 1], p[i]);
        assert e in Edges(catalog) by {
          assert Edge(p[i - 1], p[i - 1 + 1]) in Edges(catalog);
        }
        if d :| d in catalog && Edge(d.referenced, d.dependent) == e {
          assert Justifies(d, p[i - 1], p[i]);
        } else {
          var d :| d in catalog && d.internally && Edge(d.dependent, d.referenced) == e;
          assert Justifies(d, p[i - 1], p[i]);
        }
      }
    }
  }

  /** The check refuses nothing without cause: an object it names is one that a cascade drop
      would remove. So it is clear exactly when every cascade stays inside. */
  lemma ClearExactlyWhenContained(catalog: set<Depend>, start: set<Object>, identify: Identify, schema: string,
                                  local: set<nat>)
    ensures Answers(catalog, start, identify, schema, local, Clear) <==>
            forall dropped: seq<Object> | Cascade(catalog, start, dropped) ::
              forall i | 0 <= i < |dropped| :: Belongs(dropped[i], identify, schema, local)
  {
    AffectedExact(catalog, start);
    if Answers(catalog, start, identify, schema, local, Clear) {
      forall dropped: seq<Object> | Cascade(catalog, start, dropped)
        ensures forall i | 0 <= i < |dropped| :: Belongs(dropped[i], identify, schema, local)
      {
        ClearMeansContained(catalog, start, identify, schema, local, dropped);
      }
    } else {
      var o :| o in Evaluate(Edges(catalog), start, start) && !Exempt(o, identify, schema, local);
      var p :| Chain(Edges(catalog), p) && p[0] in start && p[|p| - 1] == o;
      ChainCascades(catalog, start, p);
      ExemptExact(o, identify, schema, local);
    }
  }

  /** A refusal names an object that does not belong to the islet and that a cascade drop would
      remove, and it can name any such object. */
  lemma RefusalNamesCulprit(catalog: set<Depend>, start: set<Object>, identify: Identify, schema: string,
                            local: set<nat>, o: Object)
    ensures Answers(catalog, start, identify, schema, local, Affects(o)) <==>
            !Belongs(o, identify, schema, local)
            && exists dropped: seq<Object> :: Cascade(catalog, start, dropped) && o in dropped
  {
    AffectedExact(catalog, start);
    ExemptExact(o, identify, schema, local);
    if Reachable(Edges(catalog), start, o) {
      var p :| Chain(Edges(catalog), p) && p[0] in start && p[|p| - 1] == o;
      ChainCascades(catalog, start, p);
    }
    forall dropped: seq<Object> | Cascade(catalog, start, dropped) && o in dropped
      ensures Reachable(Edges(catalog), start, o)
    {
      var i :| 0 <= i < |dropped| && dropped[i] == o;
      CascadeIsReachable(catalog, start, dropped, i);
    }
  }
}
