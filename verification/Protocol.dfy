/**
 Any number of Managers working on one registry, as a step system.

 A state holds what PostgreSQL holds (the committed islets, the row locks and the
 transactions) and where every call of a Manager has got to. An event is one step of one
 call, of the server, or of the network; everything a step may choose is in its event.
 `Step` says whether an event can happen in a state and what it leads to, so a run is a
 sequence of events, and every interleaving is one.
 */
module Protocol {
  import opened Wrappers
  import opened Gateway

  type CallId = nat

  /** Stage 0 is the first transaction of a call; stage 1 is the initialisation batch that
      follows a lifecycle transaction. */
  datatype TxId = TxId(call: CallId, stage: nat)

  /** One executed statement: the call that sent it, and the generation its handle carries. */
  datatype Write = Write(author: CallId, generation: nat, sql: string)

  /** One islet as a transaction sees it. A workspace is known by what was executed in it
      since it was last empty, in order. */
  datatype View = View(row: Option<Row>, schema: Option<seq<Write>>, role: bool)

  const ABSENT := View(None, None, false)

  /** The registry column is a bigint. */
  const MAX_BIGINT: nat := 0x7fff_ffff_ffff_ffff

  datatype Action = Reset(initialize: bool, recovering: bool) | Delete

  /** How far `reset` or `Delete` has got in its transaction. Marked is the end of
      `failLifecycle`: only the row changes, to failed. */
  datatype Stage = Held | Checked | Dropped | Cleaned | Updated | Marked

  datatype Work =
    | Run(generation: nat, token: Option<string>, sql: seq<string>, next: nat, finished: bool)
    | Manage(action: Action, generation: nat, stage: Stage)
    | Create(initialize: bool)

  datatype Phase = Running | CommitSent | Committed | Aborted

  /** `view` is the transaction's own uncommitted copy of its islet, `saved` what
      ROLLBACK TO SAVEPOINT goes back to. */
  datatype Tx = Tx(id: string, work: Work, view: View, saved: View, phase: Phase)

  datatype Op =
    | Batch(sql: seq<string>)
    | Lifecycle(action: Action, sql: seq<string>)
    | CreateIslet(initialize: bool, sql: seq<string>)

  datatype Handle = Handle(id: string, generation: nat)

  /** The handle that a call returns, with the state it shows. */
  datatype Returned = Returned(handle: Handle, state: Status)

  /** Unconfirmed is the error of the reopening that follows a committed initialisation. */
  datatype Outcome =
    | Success
    | Refused(kind: ErrorKind)
    | Unknown
    | InitializationFailed
    | Unconfirmed(kind: ErrorKind)
    | Crashed

  datatype Pc =
    | Start
    | Looked(generation: nat, token: Option<string>)  // after lookup, before enter
    | InTx(stage: nat)
    | Waiting(stage: nat)                             // COMMIT is on its way
    | Initialize                                      // lifecycle transaction committed
    | Late                                            // initialisation failed, update outstanding
    | Reopening                                       // initialisation committed, row still to be read
    | Done(outcome: Outcome)

  /** `handle` is the argument of the call, `next` the handle `initialize` works with. Once the
      late update is `posted`, the server may apply it at any time, also after the client has
      given up waiting for it or has gone. `back` is what the call returns beside its error,
      none for an empty handle. */
  datatype Call = Call(op: Op, handle: Handle, next: Handle, pc: Pc, posted: bool, back: Option<Returned>)

  /** `db` keeps an ABSENT entry for an islet that was deleted; `ids` are the identifiers
      `opaque` has drawn so far. */
  datatype State = State(
    db: map<string, View>,
    locks: map<string, TxId>,
    txs: map<TxId, Tx>,
    calls: map<CallId, Call>,
    ids: set<string>)

  const INITIAL := State(map[], map[], map[], map[], {})

  datatype Event =
    | Invoke(c: CallId, op: Op, handle: Handle)
    | Lookup(c: CallId)
    | EnterGateway(c: CallId)
    | Exec(c: CallId)
    | FinishGateway(c: CallId)
    | LockRow(c: CallId)
    | CheckDependencies(c: CallId, clear: bool)
    | DropSchema(c: CallId)
    | Rebuild(c: CallId)
    | Revert(c: CallId)
    | UpdateRow(c: CallId, token: string)
    | MakeIslet(c: CallId, id: string, token: string)
    | Send(c: CallId)
    | ServerCommit(t: TxId)
    | ServerAbort(t: TxId)
    | Reply(c: CallId, lost: bool)
    | GiveUp(c: CallId, kind: ErrorKind)
    | PostLate(c: CallId)
    | LateUpdate(c: CallId)
    | Reopen(c: CallId)
    | Crash(c: CallId)

  // ---------------------------------------------------------------- parts of a state

  function At(s: State, id: string): View {
    if id in s.db then s.db[id] else ABSENT
  }

  predicate Live(tx: Tx) {
    tx.phase == Running || tx.phase == CommitSent
  }

  function RunStage(op: Op): nat {
    if op.Batch? then 0 else 1
  }

  predicate Initializes(op: Op) {
    || (op.Lifecycle? && op.action.Reset? && op.action.initialize)
    || (op.CreateIslet? && op.initialize)
  }

  /** The handle whose islet the call's statements run in. */
  function Target(call: Call): Handle {
    if call.op.Batch? then call.handle else call.next
  }

  function SetPc(s: State, c: CallId, pc: Pc): State
    requires c in s.calls
  {
    s.(calls := s.calls[c := s.calls[c].(pc := pc)])
  }

  /** A call that meets an error: a failed initialisation still owes the late update. */
  function Failing(call: Call, kind: ErrorKind): Pc {
    match call.pc
    case Looked(_, _) => if call.op.Batch? then Done(Refused(kind)) else Late
    case InTx(k) => if k == 1 then Late else Done(Refused(kind))
    case Waiting(k) => if k == 1 then Late else Done(Refused(kind))
    case Initialize => Late
    case Late => Done(InitializationFailed)
    case Reopening => Done(Unconfirmed(kind))
    case _ => Done(Refused(kind))
  }

  function Fail(s: State, c: CallId, kind: ErrorKind): State
    requires c in s.calls
  {
    SetPc(s, c, Failing(s.calls[c], kind))
  }

  /** The open transaction of a call that is inside one. */
  function OpenTx(s: State, c: CallId): Option<TxId> {
    if c in s.calls && s.calls[c].pc.InTx? then
      var t := TxId(c, s.calls[c].pc.stage);
      if t in s.txs && s.txs[t].phase == Running then Some(t) else None
    else None
  }

  function PutTx(s: State, t: TxId, tx: Tx): State {
    s.(txs := s.txs[t := tx])
  }

  /** A new transaction that holds the row of `tx.id`. */
  function Begin(s: State, t: TxId, tx: Tx): State
    requires t.call in s.calls
  {
    SetPc(s.(txs := s.txs[t := tx], locks := s.locks[tx.id := t]), t.call, InTx(t.stage))
  }

  // ------------------------------------------------------------------ runtime batches

  /** `lookup`, and the generation test of `Batch` and `initialize`. */
  function DoLookup(s: State, c: CallId): Option<State> {
    if c !in s.calls then None
    else
      var call := s.calls[c];
      if !(call.pc == Initialize || (call.pc == Start && call.op.Batch?)) then None
      else
        var h := Target(call);
        match At(s, h.id).row
        case None => Some(Fail(s, c, NotFound))
        case Some(row) =>
          if row.generation != h.generation then Some(Fail(s, c, Stale))
          else Some(SetPc(s, c, Looked(row.generation, if call.op.Batch? then None else Some(row.token.GetOr("")))))
  }

  /** The runtime connection, BEGIN, and the call of `enter`. */
  function DoEnter(s: State, c: CallId): Option<State> {
    if c !in s.calls || !s.calls[c].pc.Looked? then None
    else
      var call := s.calls[c];
      var h := Target(call);
      var t := TxId(c, RunStage(call.op));
      var v := At(s, h.id);
      if t in s.txs then None
      else match Enter(v.row, h.id in s.locks, call.pc.generation, call.pc.token)
           case Some(kind) => Some(Fail(s, c, kind))
           case None =>
             Some(Begin(s, t, Tx(h.id, Run(call.pc.generation, call.pc.token, call.op.sql, 0, false), v, v, Running)))
  }

  /** One accepted statement runs without an error. */
  function DoExec(s: State, c: CallId): Option<State> {
    match OpenTx(s, c)
    case None => None
    case Some(t) =>
      var tx := s.txs[t];
      if !tx.work.Run? || tx.work.finished || tx.work.next >= |tx.work.sql| || tx.view.schema.None? then None
      else
        var w := Write(c, Target(s.calls[c]).generation, tx.work.sql[tx.work.next]);
        Some(PutTx(s, t, tx.(work := tx.work.(next := tx.work.next + 1),
                             view := tx.view.(schema := Some(tx.view.schema.value + [w])))))
  }

  function DoFinish(s: State, c: CallId): Option<State> {
    match OpenTx(s, c)
    case None => None
    case Some(t) =>
      var tx := s.txs[t];
      if t.stage != 1 || !tx.work.Run? || tx.work.finished || tx.work.next != |tx.work.sql| then None
      else match Finish(tx.view.row, tx.work.generation, tx.work.token)
           case Err(kind) => Some(Fail(s, c, kind))
           case Ok(row) =>
             Some(PutTx(s, t, tx.(work := tx.work.(finished := true), view := tx.view.(row := Some(row)))))
  }

  // -------------------------------------------------------------- lifecycle operations

  /** `lockMetadata`, and the tests on the state that follow it. */
  function DoLock(s: State, c: CallId): Option<State> {
    if c !in s.calls || s.calls[c].pc != Start || !s.calls[c].op.Lifecycle? then None
    else
      var call := s.calls[c];
      var h := call.handle;
      var t := TxId(c, 0);
      var v := At(s, h.id);
      if t in s.txs then None
      else if v.row.None? then
        Some(if call.op.action.Delete? then SetPc(s, c, Done(Success)) else Fail(s, c, NotFound))
      else if h.id in s.locks then Some(Fail(s, c, Busy))
      else if v.row.value.generation != h.generation then Some(Fail(s, c, Stale))
      else if v.row.value.state == Initializing && !(call.op.action.Reset? && call.op.action.recovering) then
        Some(Fail(s, c, Unavailable))
      else Some(Begin(s, t, Tx(h.id, Manage(call.op.action, h.generation, Held), v, v, Running)))
  }

  /** The transaction of a call that manages an islet and has reached `stage`. */
  function Managing(s: State, c: CallId, stage: Stage): Option<TxId> {
    match OpenTx(s, c)
    case None => None
    case Some(t) => if s.txs[t].work.Manage? && s.txs[t].work.stage == stage then Some(t) else None
  }

  function Reach(tx: Tx, stage: Stage, view: View): Tx
    requires tx.work.Manage?
  {
    tx.(work := tx.work.(stage := stage), view := view)
  }

  /** What the UPDATE of `failLifecycle` makes of an islet. */
  function MarkFailed(v: View): View {
    match v.row
    case None => v
    case Some(row) => v.(row := Some(Row(Failed, row.generation, None)))
  }

  function DoCheck(s: State, c: CallId, clear: bool): Option<State> {
    match Managing(s, c, Held)
    case None => None
    case Some(t) =>
      var tx := s.txs[t];
      Some(PutTx(s, t, if clear then Reach(tx, Checked, tx.view) else Reach(tx, Marked, MarkFailed(tx.view))))
  }

  /** SAVEPOINT, then DROP SCHEMA; `Delete` drops the role in the same statement. */
  function DoDrop(s: State, c: CallId): Option<State> {
    match Managing(s, c, Checked)
    case None => None
    case Some(t) =>
      var tx := s.txs[t];
      var view := tx.view.(schema := None, role := tx.view.role && !tx.work.action.Delete?);
      Some(PutTx(s, t, Reach(tx, Dropped, view).(saved := tx.view)))
  }

  /** `createSchema`; `Delete` has nothing to rebuild. */
  function DoRebuild(s: State, c: CallId): Option<State> {
    match Managing(s, c, Dropped)
    case None => None
    case Some(t) =>
      var tx := s.txs[t];
      Some(PutTx(s, t, Reach(tx, Cleaned, if tx.work.action.Delete? then tx.view else tx.view.(schema := Some([])))))
  }

  /** The drop or the rebuilding failed: ROLLBACK TO SAVEPOINT, then mark the row. */
  function DoRevert(s: State, c: CallId): Option<State> {
    match OpenTx(s, c)
    case None => None
    case Some(t) =>
      var tx := s.txs[t];
      if !tx.work.Manage? || !(tx.work.stage == Checked || tx.work.stage == Dropped) then None
      else Some(PutTx(s, t, Reach(tx, Marked, MarkFailed(tx.saved))))
  }

  /** The registry statement of a cleanup that worked. */
  function DoUpdate(s: State, c: CallId, token: string): Option<State> {
    match Managing(s, c, Cleaned)
    case None => None
    case Some(t) =>
      var tx := s.txs[t];
      match tx.work.action
      case Delete => Some(PutTx(s, t, Reach(tx, Updated, tx.view.(row := None))))
      case Reset(initialize, _) =>
        if tx.view.row.None? || tx.view.row.value.generation >= MAX_BIGINT || token == "" then None
        else
          var row := FreshRow(initialize, tx.view.row.value.generation + 1, token);
          Some(PutTx(s, t, Reach(tx, Updated, tx.view.(row := Some(row)))))
  }

  /** The row of an islet whose workspace has just been emptied. */
  function FreshRow(initialize: bool, generation: nat, token: string): Row {
    if initialize then Row(Initializing, generation, Some(token)) else Row(Active, generation, None)
  }

  /** The single transaction of `create`, under an identifier nobody has drawn before. */
  function DoMake(s: State, c: CallId, id: string, token: string): Option<State> {
    if c !in s.calls || s.calls[c].pc != Start || !s.calls[c].op.CreateIslet? || TxId(c, 0) in s.txs
       || id in s.ids || token == "" then None
    else
      var initialize := s.calls[c].op.initialize;
      var view := View(Some(FreshRow(initialize, 1, token)), Some([]), true);
      var s1 := Begin(s, TxId(c, 0), Tx(id, Create(initialize), view, ABSENT, Running));
      Some(s1.(calls := s1.calls[c := s1.calls[c].(next := Handle(id, 1))], ids := s1.ids + {id}))
  }

  // --------------------------------------------------------------------------- commit

  predicate Complete(t: TxId, work: Work) {
    match work
    case Run(_, _, sql, next, finished) => next == |sql| && (t.stage == 1 ==> finished)
    case Manage(_, _, stage) => stage == Updated || stage == Marked
    case Create(_) => true
  }

  /** COMMIT, which may reach a server that has already ended the transaction. */
  function DoSend(s: State, c: CallId): Option<State> {
    if c !in s.calls || !s.calls[c].pc.InTx? then None
    else
      var t := TxId(c, s.calls[c].pc.stage);
      if t !in s.txs || !Complete(t, s.txs[t].work) then None
      else match s.txs[t].phase
           case Running => Some(SetPc(PutTx(s, t, s.txs[t].(phase := CommitSent)), c, Waiting(t.stage)))
           case Aborted => Some(SetPc(s, c, Waiting(t.stage)))
           case _ => None
  }

  /** The commit itself: the islet's row, schema and role change together, and the lock goes. */
  function DoCommit(s: State, t: TxId): Option<State> {
    if t !in s.txs || s.txs[t].phase != CommitSent then None
    else
      var tx := s.txs[t];
      Some(s.(db := s.db[tx.id := tx.view], locks := s.locks - {tx.id}, txs := s.txs[t := tx.(phase := Committed)]))
  }

  /** ROLLBACK, a timeout, a broken connection or a crash of the server. */
  function DoAbort(s: State, t: TxId): Option<State> {
    if t !in s.txs || !Live(s.txs[t]) then None
    else
      var tx := s.txs[t];
      Some(s.(locks := s.locks - {tx.id}, txs := s.txs[t := tx.(phase := Aborted)]))
  }

  predicate IsMarked(work: Work) {
    work.Manage? && work.stage == Marked
  }

  /** What `create` and `reset` return with their commit, whatever becomes of it. */
  function Committing(call: Call, work: Work): Call {
    match work
    case Create(initialize) => call.(back := Some(Returned(call.next, Fresh(initialize))))
    case Manage(Reset(initialize, _), generation, stage) =>
      if stage == Marked then call
      else call.(back := Some(Returned(Handle(call.handle.id, generation + 1), Fresh(initialize))))
    case _ => call
  }

  function Fresh(initialize: bool): Status {
    if initialize then Initializing else Active
  }

  /** What a call does after its transaction has really committed. */
  function AfterCommit(call: Call, k: nat, work: Work): Call {
    if k == 1 then call.(pc := Reopening, back := Some(Returned(call.next, Active)))
    else if work.Run? then call.(pc := Done(Success))
    else if IsMarked(work) then call.(pc := Done(Refused(ErrorKind.Lifecycle)))
    else
      var moved := if work.Manage? && work.action.Reset?
                   then call.(next := Handle(call.handle.id, work.generation + 1)) else call;
      moved.(pc := if Initializes(call.op) then Initialize else Done(Success))
  }

  /** The three outcomes of `commit`: a nil error, an error of PostgreSQL's own, and a lost
      reply, which can happen whatever the server did or has yet to do. */
  function DoReply(s: State, c: CallId, lost: bool): Option<State> {
    if c !in s.calls || !s.calls[c].pc.Waiting? then None
    else
      var t := TxId(c, s.calls[c].pc.stage);
      if t !in s.txs then None
      else
        var call := Committing(s.calls[c], s.txs[t].work);
        match Replying(call, t.stage, s.txs[t], lost)
        case None => None
        case Some(call') => Some(s.(calls := s.calls[c := call']))
  }

  function Replying(call: Call, k: nat, tx: Tx, lost: bool): Option<Call> {
    if lost then Some(call.(pc := if k == 1 then Late else Done(Unknown)))
    else match tx.phase
         case Committed => Some(AfterCommit(call, k, tx.work))
         case Aborted => Some(call.(pc := Failing(call, if IsMarked(tx.work) then ErrorKind.Lifecycle else Query)))
         case _ => None
  }

  // ------------------------------------------------------------------------- failures

  /** An error anywhere outside a commit. The deferred rollback need not arrive: the
      transaction stays with the server, which ends it in a ServerAbort. */
  function DoGiveUp(s: State, c: CallId, kind: ErrorKind): Option<State> {
    if c !in s.calls || s.calls[c].pc.Waiting? || s.calls[c].pc.Done? then None
    else Some(Fail(s, c, kind))
  }

  function DoCrash(s: State, c: CallId): Option<State> {
    if c !in s.calls || s.calls[c].pc.Done? then None
    else Some(SetPc(s, c, Done(Crashed)))
  }

  /** The WHERE clause of the late update. */
  predicate LateMatches(v: View, generation: nat) {
    v.row.Some? && v.row.value.generation == generation && v.row.value.state == Initializing
  }

  /** The late update of `initialize` is sent. */
  function DoPost(s: State, c: CallId): Option<State> {
    if c !in s.calls || s.calls[c].pc != Late then None
    else Some(s.(calls := s.calls[c := s.calls[c].(posted := true)]))
  }

  /** The server applies it, in a transaction of one statement: it waits for a held row and then
      tests the row as it is committed. What it has matched once it does not match again. */
  function DoLate(s: State, c: CallId): Option<State> {
    if c !in s.calls || !s.calls[c].posted then None
    else
      var h := s.calls[c].next;
      var v := At(s, h.id);
      if v.row.Some? && h.id in s.locks then None
      else Some(if LateMatches(v, h.generation) then s.(db := s.db[h.id := MarkFailed(v)]) else s)
  }

  /** `Open`, after an initialisation: a plain read of the row. A missing row is the error of the
      call if the initialisation has committed; after a failed one it changes nothing. */
  function DoReopen(s: State, c: CallId): Option<State> {
    if c !in s.calls || !(s.calls[c].pc == Late || s.calls[c].pc == Reopening) then None
    else
      var call := s.calls[c];
      match At(s, call.next.id).row
      case None => Some(if call.pc == Late then s else Fail(s, c, NotFound))
      case Some(row) => Some(s.(calls := s.calls[c := Reopened(call, row)]))
  }

  function Reopened(call: Call, row: Row): Call {
    call.(pc := if call.pc == Late then Late else Done(Success),
          back := Some(Returned(Handle(call.next.id, row.generation), row.state)))
  }

  function DoInvoke(s: State, c: CallId, op: Op, handle: Handle): Option<State> {
    if c in s.calls then None
    else Some(s.(calls := s.calls[c := Call(op, handle, handle, Start, false, None)]))
  }

  function Step(s: State, e: Event): Option<State> {
    match e
    case Invoke(c, op, handle) => DoInvoke(s, c, op, handle)
    case Lookup(c) => DoLookup(s, c)
    case EnterGateway(c) => DoEnter(s, c)
    case Exec(c) => DoExec(s, c)
    case FinishGateway(c) => DoFinish(s, c)
    case LockRow(c) => DoLock(s, c)
    case CheckDependencies(c, clear) => DoCheck(s, c, clear)
    case DropSchema(c) => DoDrop(s, c)
    case Rebuild(c) => DoRebuild(s, c)
    case Revert(c) => DoRevert(s, c)
    case UpdateRow(c, token) => DoUpdate(s, c, token)
    case MakeIslet(c, id, token) => DoMake(s, c, id, token)
    case Send(c) => DoSend(s, c)
    case ServerCommit(t) => DoCommit(s, t)
    case ServerAbort(t) => DoAbort(s, t)
    case Reply(c, lost) => DoReply(s, c, lost)
    case GiveUp(c, kind) => DoGiveUp(s, c, kind)
    case PostLate(c) => DoPost(s, c)
    case LateUpdate(c) => DoLate(s, c)
    case Reopen(c) => DoReopen(s, c)
    case Crash(c) => DoCrash(s, c)
  }

  /** A whole run. */
  function Steps(s: State, es: seq<Event>): Option<State>
    decreases |es|
  {
    if es == [] then Some(s)
    else match Step(s, es[0])
         case None => None
         case Some(s1) => Steps(s1, es[1..])
  }
}
