/**
 The policy inside the protocol. A statement is executed only after it has passed the policy, on
 the names its own transaction sees at that moment; the order of visiting is drawn afresh for
 every check. So whatever a run has left in a workspace has passed, statement by statement.
 */
module Vetting {
  import opened Wrappers
  import opened Gateway
  import opened Protocol
  import opened Serial
  import opened ProtocolRuns
  import opened Policy
  import opened PolicyMeaning
  import opened PolicySoundness
  import opened Execution

  /** What all Managers share: the rules, the names of the catalog routines, the functions that a
      schema holds after some statements, and the order of visiting for every check. */
  datatype Env = Env(
    rules: Rules,
    reserved: set<string>,
    catalog: seq<Write> -> seq<string>,
    order: (CallId, nat) -> Schedule)

  ghost predicate AllFair(env: Env) {
    forall c, i :: Fair(env.order(c, i))
  }

  function RulesOf(env: Env, id: string): Rules {
    env.rules.(schema := "pgislet_i_" + id)
  }

  /** The policy on one statement, after those that have been executed in the schema before. */
  predicate Passes(env: Env, order: Schedule, id: string, before: seq<Write>, sql: string) {
    Check(Checker(RulesOf(env, id), order), sql, LocalFunctions(env.reserved, env.catalog(before))) == None
  }

  /** The check that comes before a statement. */
  predicate Admitted(env: Env, s: State, e: Event) {
    match e
    case Exec(c) =>
      (match OpenTx(s, c)
       case None => true
       case Some(t) =>
         var tx := s.txs[t];
         tx.work.Run? && tx.work.next < |tx.work.sql| && tx.view.schema.Some? ==>
           Passes(env, env.order(c, tx.work.next), tx.id, tx.view.schema.value, tx.work.sql[tx.work.next]))
    case _ => true
  }

  /** A run in which every statement is checked first. */
  function Runs(env: Env, s: State, es: seq<Event>): Option<State>
    decreases |es|
  {
    if es == [] then Some(s)
    else if !Admitted(env, s, es[0]) then None
    else match Step(s, es[0])
         case None => None
         case Some(s1) => Runs(env, s1, es[1..])
  }

  /** It is a run of the protocol, so all that holds of those holds of it. */
  lemma {:induction false} RunsAreRuns(env: Env, s: State, es: seq<Event>)
    requires Runs(env, s, es).Some?
    ensures Steps(s, es) == Runs(env, s, es)
    decreases |es|
  {
    if es != [] {
      hide Step, Admitted;
      RunsAreRuns(env, Step(s, es[0]).value, es[1..]);
    }
  }

  // -------------------------------------------------------------------- what has been passed

  /** The statement at a place in a workspace has passed the policy there, in some order. */
  ghost predicate PassedAt(env: Env, id: string, ws: seq<Write>, i: nat)
    requires i < |ws|
  {
    exists order :: Fair(order) && Passes(env, order, id, ws[..i], ws[i].sql)
  }

  ghost predicate Vetted(env: Env, id: string, schema: Option<seq<Write>>) {
    schema.Some? ==> forall i: nat :: i < |schema.value| ==> PassedAt(env, id, schema.value, i)
  }

  ghost predicate TxVetted(env: Env, tx: Tx) {
    Vetted(env, tx.id, tx.view.schema) && Vetted(env, tx.id, tx.saved.schema)
  }

  ghost predicate AllVetted(env: Env, s: State) {
    && (forall id <- s.db :: Vetted(env, id, s.db[id].schema))
    && (forall t <- s.txs :: TxVetted(env, s.txs[t]))
  }

  lemma OneMoreVetted(env: Env, id: string, ws: seq<Write>, w: Write, order: Schedule)
    requires Vetted(env, id, Some(ws)) && Fair(order) && Passes(env, order, id, ws, w.sql)
    ensures Vetted(env, id, Some(ws + [w]))
  {
    hide Passes, Fair;
    forall i: nat | i < |ws + [w]| ensures PassedAt(env, id, ws + [w], i) {
      if i < |ws| {
        assert PassedAt(env, id, ws, i);
        assert (ws + [w])[..i] == ws[..i];
      } else {
        assert (ws + [w])[..i] == ws;
      }
    }
  }

  /** The schemas in a state and in the one before: committed and uncommitted copies come from
      each other, or are empty or gone. */
  lemma SchemasStay(env: Env, s: State, e: Event)
    requires AllVetted(env, s) && Step(s, e).Some? && !e.Exec?
    ensures AllVetted(env, Step(s, e).value)
  {
    if ManagesIslet(e) {
      hide Step, AllVetted;
      ManagedSchemasStay(env, s, e);
    } else {
      hide DoLock, DoCheck, DoDrop, DoRebuild, DoRevert, DoUpdate, DoMake, Enter, Finish, Complete, LateMatches,
        Failing;
      hide Replying, Committing, Reopened, Vetted;
    }
  }

  lemma ManagedSchemasStay(env: Env, s: State, e: Event)
    requires AllVetted(env, s) && Step(s, e).Some? && ManagesIslet(e)
    ensures AllVetted(env, Step(s, e).value)
  {
    hide FreshRow, Failing, PassedAt;
    if e.LockRow? || e.MakeIslet? {
      hide DoCheck, DoDrop, DoRebuild, DoRevert, DoUpdate;
    } else {
      hide DoLock, DoMake;
    }
  }

  lemma ExecVetted(env: Env, s: State, c: CallId)
    requires AllFair(env) && AllVetted(env, s) && DoExec(s, c).Some? && Admitted(env, s, Exec(c))
    ensures AllVetted(env, DoExec(s, c).value)
  {
    var t := OpenTx(s, c).value;
    var tx := s.txs[t];
    assert TxVetted(env, tx);
    var w := Write(c, Target(s.calls[c]).generation, tx.work.sql[tx.work.next]);
    OneMoreVetted(env, tx.id, tx.view.schema.value, w, env.order(c, tx.work.next));
    hide Vetted, Passes, Fair;
  }

  lemma {:induction false} RunVetted(env: Env, s: State, es: seq<Event>)
    requires AllFair(env) && AllVetted(env, s) && Runs(env, s, es).Some?
    ensures AllVetted(env, Runs(env, s, es).value)
    decreases |es|
  {
    if es != [] {
      if es[0].Exec? {
        ExecVetted(env, s, es[0].c);
      } else {
        SchemasStay(env, s, es[0]);
      }
      hide Step, AllVetted, AllFair, Admitted;
      RunVetted(env, Step(s, es[0]).value, es[1..]);
    }
  }

  /** Every statement in every workspace that any run has left has passed the policy, under the
      names that the statements before it had brought about. */
  lemma EveryStatementHasPassed(env: Env, es: seq<Event>)
    requires AllFair(env) && Runs(env, INITIAL, es).Some?
    ensures var r := Published(Runs(env, INITIAL, es).value);
            forall id <- r :: forall i: nat :: i < |r[id].workspace| ==> PassedAt(env, id, r[id].workspace, i)
  {
    RunVetted(env, INITIAL, es);
    hide PassedAt, Runs, AllFair;
  }

  /** End to end: in no workspace that any run has left is there a statement that calls or defines
      a catalog routine outside the allowlist, at any depth of its text bodies, whatever functions
      were created, replaced or renamed before it. */
  lemma NoCatalogRoutineIsCalled(env: Env, es: seq<Event>, id: string, i: nat, name: string)
    requires AllFair(env) && Runs(env, INITIAL, es).Some?
    requires id in Published(Runs(env, INITIAL, es).value)
             && i < |Published(Runs(env, INITIAL, es).value)[id].workspace|
    requires name in env.reserved && name !in env.rules.builtins
    ensures var sql := Published(Runs(env, INITIAL, es).value)[id].workspace[i].sql;
            && env.rules.parser(sql).Some?
            && forall n <- Nodes(RulesOf(env, id), JObject(env.rules.parser(sql).value), 0) ::
                 && (n.key in {"FuncCall", "CreateTrigStmt", "CreateFunctionStmt"} ==> NameOf(n.value) != name)
                 && (n.key == "funcname" ==> LastName(Names(n.value)) != name)
  {
    EveryStatementHasPassed(env, es);
    var ws := Published(Runs(env, INITIAL, es).value)[id].workspace;
    assert PassedAt(env, id, ws, i);
    var order :| Fair(order) && Passes(env, order, id, ws[..i], ws[i].sql);
    var c := Checker(RulesOf(env, id), order);
    hide Published, Runs, AllFair, Fair, Check, LocalFunctions, Nodes, Names, NameOf;
    CheckSound(c, ws[i].sql, LocalFunctions(env.reserved, env.catalog(ws[..i])));
    CatalogRoutinesAreNeverCalled(c, ws[i].sql, env.reserved, env.catalog(ws[..i]), name);
  }

  /** The qualifiers that a call may have in the schema of an islet. */
  predicate OwnQualifier(id: string, q: string) {
    q in {"", "pg_catalog", "pgislet_i_" + id}
  }

  /** The node is a call of `q.f`, or holds the name of one. */
  predicate Calls(n: Node, q: string, f: string) {
    || (n.key == "funcname" && Spells(n.value, [q, f]))
    || (n.key in {"FuncCall", "CreateTrigStmt"} && HasField(n.value, "funcname")
        && Spells(n.value.fields["funcname"], [q, f]))
  }

  /** And in no workspace is there a call into the schema of another islet, or into any schema but
      the islet's own and the catalog. */
  lemma NoForeignSchemaIsCalled(env: Env, es: seq<Event>, id: string, i: nat, q: string, f: string)
    requires AllFair(env) && Runs(env, INITIAL, es).Some?
    requires id in Published(Runs(env, INITIAL, es).value)
             && i < |Published(Runs(env, INITIAL, es).value)[id].workspace|
    ensures var sql := Published(Runs(env, INITIAL, es).value)[id].workspace[i].sql;
            && env.rules.parser(sql).Some?
            && forall n <- Nodes(RulesOf(env, id), JObject(env.rules.parser(sql).value), 0) ::
                 Calls(n, q, f) ==> OwnQualifier(id, q)
  {
    EveryStatementHasPassed(env, es);
    var ws := Published(Runs(env, INITIAL, es).value)[id].workspace;
    assert PassedAt(env, id, ws, i);
    var order :| Fair(order) && Passes(env, order, id, ws[..i], ws[i].sql);
    var c := Checker(RulesOf(env, id), order);
    var local := LocalFunctions(env.reserved, env.catalog(ws[..i]));
    hide Published, Runs, AllFair, Fair, Check, LocalFunctions, Nodes, Calls, OwnQualifier;
    CheckSound(c, ws[i].sql, local);
    var nodes := Nodes(c.rules, JObject(env.rules.parser(ws[i].sql).value), 0);
    forall n <- nodes
      ensures Calls(n, q, f) ==> OwnQualifier(id, q)
    {
      if Calls(n, q, f) {
        QualifierAllowed(env, id, n, Permitted(local) + Defined(nodes), q, f);
      }
    }
  }

  lemma QualifierAllowed(env: Env, id: string, n: Node, names: set<string>, q: string, f: string)
    requires NodeAllowed(RulesOf(env, id), names, n) && Calls(n, q, f)
    ensures OwnQualifier(id, q)
  {
    hide FieldAllowed, DefinitionAllowed, Names, Spells;
    if n.key == "funcname" {
      NamesExact(n.value, [q, f]);
    } else {
      NamesExact(n.value.fields["funcname"], [q, f]);
    }
  }
}
