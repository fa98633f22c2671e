/**
 The sequential specification: a registry on which whole operations are performed one
 after the other. The protocol refines it: what a run has committed is what its operations
 do here, in the order in which they committed, whatever the interleaving was.
 */
module Serial {
  import opened Wrappers
  import opened Gateway
  import opened Protocol
  import opened ProtocolInvariant
  import opened ProtocolSteps

  datatype Islet = Islet(row: Row, workspace: seq<Write>)

  type Registry = map<string, Islet>

  datatype Operation =
    | Created(id: string, initialize: bool, drawn: string)
    | Ran(id: string, generation: nat, author: CallId, token: Option<string>, sql: seq<string>)
    | Emptied(id: string, generation: nat, recovering: bool, initialize: bool, drawn: string)
    | Removed(id: string, generation: nat)
    | CleanupFailed(id: string, generation: nat, recovering: bool)
    | InitFailed(id: string, generation: nat)

  /** One operation, performed alone. Each needs the islet at the generation it was meant
      for, and changes that islet only. */
  function Perform(r: Registry, o: Operation): Option<Registry> {
    match o
    case Created(id, initialize, drawn) =>
      if id in r then None else Some(r[id := Islet(FreshRow(initialize, 1, drawn), [])])
    case Ran(id, generation, author, token, sql) =>
      if id !in r || !Admits(r[id].row, generation, token) then None
      else Some(r[id := Islet(Row(Active, generation, None), r[id].workspace + Writes(author, generation, sql))])
    case Emptied(id, generation, recovering, initialize, drawn) =>
      if !Manageable(r, id, generation, recovering) then None
      else Some(r[id := Islet(FreshRow(initialize, generation + 1, drawn), [])])
    case Removed(id, generation) =>
      if !Manageable(r, id, generation, false) then None else Some(r - {id})
    case CleanupFailed(id, generation, recovering) =>
      if !Manageable(r, id, generation, recovering) then None
      else Some(r[id := Islet(Row(Failed, generation, None), r[id].workspace)])
    case InitFailed(id, generation) =>
      if id !in r || r[id].row.generation != generation || r[id].row.state != Initializing then None
      else Some(r[id := Islet(Row(Failed, generation, None), r[id].workspace)])
  }

  /** Lifecycle operations leave an islet alone while it is initializing; Recover does not. */
  predicate Manageable(r: Registry, id: string, generation: nat, recovering: bool) {
    id in r && r[id].row.generation == generation && (r[id].row.state == Initializing ==> recovering)
  }

  function PerformAll(r: Registry, os: seq<Operation>): Option<Registry>
    decreases |os|
  {
    if os == [] then Some(r)
    else match Perform(r, os[0])
         case None => None
         case Some(r1) => PerformAll(r1, os[1..])
  }

  // ---------------------------------------------------------------------- abstraction

  predicate Present(v: View) {
    v.row.Some? && v.schema.Some?
  }

  /** What a state has committed. */
  function Published(s: State): Registry {
    map id | id in s.db && Present(s.db[id]) :: Islet(s.db[id].row.value, s.db[id].schema.value)
  }

  /** The operation a transaction performs when it commits. */
  function OperationOf(t: TxId, tx: Tx): Operation {
    match tx.work
    case Run(generation, token, sql, _, _) => Ran(tx.id, generation, t.call, token, sql)
    case Manage(action, generation, stage) =>
      if stage == Marked then CleanupFailed(tx.id, generation, action.Reset? && action.recovering)
      else if action.Delete? then Removed(tx.id, generation)
      else Emptied(tx.id, generation, action.recovering, action.initialize, DrawnToken(tx.view))
    case Create(initialize) => Created(tx.id, initialize, DrawnToken(tx.view))
  }

  function DrawnToken(v: View): string {
    if v.row.Some? then v.row.value.token.GetOr("") else ""
  }

  /** The operation a step performs, if it is one that commits anything. */
  function Effect(s: State, e: Event): Option<Operation> {
    match e
    case ServerCommit(t) => if t in s.txs then Some(OperationOf(t, s.txs[t])) else None
    case LateUpdate(c) =>
      if c in s.calls && LateMatches(At(s, s.calls[c].next.id), s.calls[c].next.generation)
      then Some(InitFailed(s.calls[c].next.id, s.calls[c].next.generation)) else None
    case _ => None
  }

  function Effects(s: State, es: seq<Event>): seq<Operation>
    decreases |es|
  {
    if es == [] then []
    else match Step(s, es[0])
         case None => []
         case Some(s1) =>
           (match Effect(s, es[0]) case None => [] case Some(o) => [o]) + Effects(s1, es[1..])
  }

  // ----------------------------------------------------------------------- refinement

  /** A registry that shows an islet as `v`. */
  predicate Shows(r: Registry, id: string, v: View) {
    if Present(v) then id in r && r[id] == Islet(v.row.value, v.schema.value) else id !in r
  }

  /** Two registries that agree outside one islet. */
  lemma OneChange(r: Registry, r': Registry, id: string)
    requires r' - {id} == r - {id}
    ensures id in r' ==> r' == r[id := r'[id]]
    ensures id !in r' ==> r' == r - {id}
  {
    forall i | i != id ensures (i in r' <==> i in r) && (i in r ==> r'[i] == r[i]) {
      assert i in r' <==> i in r' - {id};
      assert i in r <==> i in r - {id};
      assert i in r ==> (r - {id})[i] == (r' - {id})[i];
    }
  }

  /** A transaction that may commit performs its operation on the islet it locked. */
  lemma CommitWork(t: TxId, tx: Tx, base: View, r: Registry, r': Registry)
    requires WorkOk(t.call, tx, base) && Complete(t, tx.work)
    requires tx.work.Run? && tx.work.token.Some? ==> tx.work.finished
    requires Shows(r, tx.id, base) && Shows(r', tx.id, tx.view)
    requires r' - {tx.id} == r - {tx.id}
    ensures Perform(r, OperationOf(t, tx)) == Some(r')
  {
    if tx.work.Run? {
      assert tx.work.sql[..tx.work.next] == tx.work.sql;
    }
    OneChange(r, r', tx.id);
  }

  /** Replacing one committed view changes what is committed of that islet only. */
  lemma CommittedUpdate(s: State, s': State, id: string, v: View)
    requires s'.db == s.db[id := v]
    ensures Published(s') - {id} == Published(s) - {id}
    ensures Shows(Published(s), id, At(s, id)) && Shows(Published(s'), id, v)
  {
    var r, r' := Published(s), Published(s');
    assert forall i :: i != id ==> (i in r <==> i in r');
  }

  /** Every step commits nothing, or performs exactly one operation of the specification. */
  lemma Refines(s: State, e: Event)
    requires Inv(s) && Step(s, e).Some?
    ensures match Effect(s, e)
            case None => Published(Step(s, e).value) == Published(s)
            case Some(o) => Perform(Published(s), o) == Some(Published(Step(s, e).value))
  {
    if e.ServerCommit? {
      CommitRefines(s, e.t);
    } else if e.LateUpdate? && Effect(s, e).Some? {
      LateRefines(s, e.c);
    } else {
      QuietStep(s, e);
    }
  }

  /** Only a commit and a late update that matches change anything committed. */
  lemma QuietStep(s: State, e: Event)
    requires Step(s, e).Some? && Effect(s, e).None?
    ensures Step(s, e).value.db == s.db
  {
  }

  lemma CommitRefines(s: State, t: TxId)
    requires Inv(s) && DoCommit(s, t).Some?
    ensures Perform(Published(s), OperationOf(t, s.txs[t])) == Some(Published(DoCommit(s, t).value))
  {
    var tx := s.txs[t];
    var s' := DoCommit(s, t).value;
    assert TxOk(s, t, tx);
    hide Inv, WorkOk, Published;
    CommittedUpdate(s, s', tx.id, tx.view);
    CommitWork(t, tx, At(s, tx.id), Published(s), Published(s'));
  }

  lemma LateRefines(s: State, c: CallId)
    requires Inv(s) && DoLate(s, c).Some? && Effect(s, LateUpdate(c)).Some?
    ensures Perform(Published(s), Effect(s, LateUpdate(c)).value) == Some(Published(DoLate(s, c).value))
  {
    var h := s.calls[c].next;
    var s' := DoLate(s, c).value;
    var v := s.db[h.id];
    assert IsletOk(v);
    hide Inv, Published;
    CommittedUpdate(s, s', h.id, MarkFailed(v));
    var r, r' := Published(s), Published(s');
    OneChange(r, r', h.id);
  }

  /** Whole runs: the committed registry is what the operations make of it one by one, in
      commit order. */
  lemma {:induction false} RunRefines(s: State, es: seq<Event>)
    requires Inv(s) && Steps(s, es).Some?
    ensures PerformAll(Published(s), Effects(s, es)) == Some(Published(Steps(s, es).value))
    decreases |es|
  {
    if es != [] {
      var s1 := Step(s, es[0]).value;
      StepKeeps(s, es[0]);
      Refines(s, es[0]);
      RunRefines(s1, es[1..]);
      var rest := Effects(s1, es[1..]);
      match Effect(s, es[0])
      case None => assert [] + rest == rest;
      case Some(o) => assert ([o] + rest)[1..] == rest;
    }
  }

  /** Serialisability, from the empty registry. */
  lemma Serializable(es: seq<Event>)
    requires Steps(INITIAL, es).Some?
    ensures PerformAll(map[], Effects(INITIAL, es)) == Some(Published(Steps(INITIAL, es).value))
  {
    assert Published(INITIAL) == map[];
    RunRefines(INITIAL, es);
  }

  /** The operation a step performs is one its call asked for: the call's own islet and
      generation, and for a batch all of its statements and no others. */
  predicate AskedFor(c: CallId, call: Call, o: Operation) {
    match o
    case Created(id, initialize, _) => call.op.CreateIslet? && id == call.next.id && initialize == call.op.initialize
    case Ran(id, generation, author, token, sql) =>
      && author == c && sql == call.op.sql
      && Handle(id, generation) == Target(call)
      && (token.None? <==> call.op.Batch?) && (token.Some? ==> Initializes(call.op))
    case Emptied(id, generation, recovering, initialize, _) =>
      call.op.Lifecycle? && call.op.action == Reset(initialize, recovering) && Handle(id, generation) == call.handle
    case Removed(id, generation) =>
      call.op.Lifecycle? && call.op.action.Delete? && Handle(id, generation) == call.handle
    case CleanupFailed(id, generation, recovering) =>
      && call.op.Lifecycle? && Handle(id, generation) == call.handle
      && recovering == (call.op.action.Reset? && call.op.action.recovering)
    case InitFailed(id, generation) => Initializes(call.op) && Handle(id, generation) == call.next
  }

  function CallOf(e: Event): Option<CallId> {
    match e
    case ServerCommit(t) => Some(t.call)
    case LateUpdate(c) => Some(c)
    case _ => None
  }

  lemma EffectIsAskedFor(s: State, e: Event)
    requires Inv(s) && Step(s, e).Some? && Effect(s, e).Some?
    ensures CallOf(e).Some? && CallOf(e).value in s.calls
    ensures AskedFor(CallOf(e).value, s.calls[CallOf(e).value], Effect(s, e).value)
  {
    if e.ServerCommit? {
      assert TxOk(s, e.t, s.txs[e.t]);
      CommitIsAskedFor(s, e.t);
    } else {
      assert CallOk(s.calls[e.c], TxOf(s, e.c, 0), TxOf(s, e.c, 1));
      hide Inv, TxOk;
    }
  }

  lemma CommitIsAskedFor(s: State, t: TxId)
    requires Inv(s) && t in s.txs && Complete(t, s.txs[t].work)
    ensures t.call in s.calls && AskedFor(t.call, s.calls[t.call], OperationOf(t, s.txs[t]))
  {
    hide DbOk, CallsOk, LocksOk, WorkOk, Complete, Seen;
    assert TxOk(s, t, s.txs[t]);
    hide TxsOk;
  }
}
