/** What every reachable state of the protocol satisfies, and that every step keeps it. */
module ProtocolInvariant {
  import opened Wrappers
  import opened Gateway
  import opened Protocol

  // -------------------------------------------------------------------------- islets

  /** A row: the token is there exactly while the state is initializing. */
  predicate RowOk(row: Row) {
    && row.generation >= 1
    && (row.token.Some? <==> row.state == Initializing)
    && row.state != Deleting
  }

  /** One committed islet. Row, schema and role exist together; everything in the workspace
      was written under the generation the row has now; and while the row is initializing
      the workspace is empty. */
  predicate IsletOk(v: View) {
    && v.row.Some? == v.schema.Some? == v.role
    && (v.row.Some? ==>
          && RowOk(v.row.value)
          && (v.row.value.state == Initializing ==> v.schema.value == [])
          && forall w <- v.schema.value :: w.generation == v.row.value.generation)
  }

  // -------------------------------------------------------------------- transactions

  /** What the first `n` statements of a batch add to a workspace. */
  function Writes(author: CallId, generation: nat, sql: seq<string>): (ws: seq<Write>)
    ensures |ws| == |sql|
    ensures forall w <- ws :: w.generation == generation && w.author == author
  {
    seq(|sql|, i requires 0 <= i < |sql| => Write(author, generation, sql[i]))
  }

  /** The uncommitted copy of an open transaction, told from the committed islet it locked:
      this is where a lock held to the end of the transaction is used. */
  predicate WorkOk(author: CallId, tx: Tx, base: View) {
    && IsletOk(base)
    && match tx.work
       case Run(generation, token, sql, next, finished) =>
         && base.row.Some?
         && Admits(base.row.value, generation, token)
         && next <= |sql|
         && (finished ==> next == |sql| && token.Some?)
         && tx.view == View(Some(if finished then Row(Active, generation, None) else base.row.value),
                            Some(base.schema.value + Writes(author, generation, sql[..next])), true)
       case Manage(action, generation, stage) =>
         && base.row.Some?
         && base.row.value.generation == generation
         && (base.row.value.state == Initializing ==> action.Reset? && action.recovering)
         && ManageOk(action, stage, tx.view, base)
         && (stage == Held || stage == Checked || stage == Dropped ==> tx.saved == base)
       case Create(initialize) =>
         && base == ABSENT
         && tx.view.role && tx.view.schema == Some([]) && tx.view.row.Some?
         && RowOk(tx.view.row.value) && tx.view.row.value.generation == 1
         && tx.view.row.value.state == (if initialize then Initializing else Active)
  }

  predicate ManageOk(action: Action, stage: Stage, view: View, base: View)
    requires base.row.Some?
  {
    match stage
    case Held => view == base
    case Checked => view == base
    case Dropped => view == View(base.row, None, action.Reset?)
    case Cleaned => view == if action.Delete? then View(base.row, None, false) else View(base.row, Some([]), true)
    case Updated =>
      if action.Delete? then view == ABSENT
      else
        && view.row.Some? && view.schema == Some([]) && view.role
        && RowOk(view.row.value)
        && view.row.value.generation == base.row.value.generation + 1
        && view.row.value.state == (if action.initialize then Initializing else Active)
    case Marked => view == MarkFailed(base)
  }

  /** What a transaction is for, told from the call that opened it. */
  predicate Belongs(op: Op, handle: Handle, next: Handle, t: TxId, id: string, work: Work) {
    if t.stage == 0 then
      match op
      case Batch(sql) =>
        && id == handle.id
        && work.Run? && work.sql == sql && work.generation == handle.generation
        && work.token.None? && !work.finished
      case Lifecycle(action, _) =>
        id == handle.id && work.Manage? && work.action == action
        && work.generation == handle.generation
      case CreateIslet(initialize, _) =>
        id == next.id && next.generation == 1 && work == Create(initialize)
    else
      && t.stage == 1
      && Initializes(op)
      && id == next.id
      && work.Run? && work.sql == op.sql && work.generation == next.generation
      && work.token.Some?
  }

  /** The generation a transaction leaves its islet at. */
  function Leaves(work: Work): nat {
    match work
    case Run(generation, _, _, _, _) => generation
    case Manage(action, generation, stage) =>
      if action.Reset? && stage != Marked then generation + 1 else generation
    case Create(_) => 1
  }

  /** From the moment a call has seen a generation of an islet, the islet has been committed
      once, and if it is still there its generation is no older. */
  predicate Seen(s: State, id: string, generation: nat) {
    && id in s.db
    && (s.db[id].row.Some? ==> s.db[id].row.value.generation >= generation)
  }

  predicate BelongsTo(call: Call, t: TxId, tx: Tx) {
    Belongs(call.op, call.handle, call.next, t, tx.id, tx.work)
  }

  predicate TxOk(s: State, t: TxId, tx: Tx) {
    && t.call in s.calls
    && BelongsTo(s.calls[t.call], t, tx)
    && tx.id in s.ids
    && (Live(tx) ==>
          && tx.id in s.locks && s.locks[tx.id] == t
          && (tx.work.Create? ==> tx.id !in s.db)
          && WorkOk(t.call, tx, At(s, tx.id)))
    && (tx.phase == CommitSent || tx.phase == Committed ==> Complete(t, tx.work))
    && (tx.phase == Committed ==> Seen(s, tx.id, Leaves(tx.work)))
  }

  // --------------------------------------------------------------------------- calls

  function TxOf(s: State, c: CallId, stage: nat): Option<Tx> {
    var t := TxId(c, stage);
    if t in s.txs then Some(s.txs[t]) else None
  }

  /** The lifecycle transaction that lets `initialize` go ahead. */
  predicate Prepared(op: Op, tx: Option<Tx>) {
    Initializes(op) && tx.Some? && tx.value.phase == Committed && !IsMarked(tx.value.work)
  }

  predicate Undecided(tx: Option<Tx>) {
    tx.Some? && (tx.value.phase == Running || tx.value.phase == Aborted)
  }

  predicate Sent(tx: Option<Tx>) {
    tx.Some? && tx.value.phase != Running
  }

  /** The transactions of a call, told from where the call is; for a call that is over,
      what its outcome says about them. */
  predicate CallOk(call: Call, tx0: Option<Tx>, tx1: Option<Tx>) {
    && (call.posted ==> Prepared(call.op, tx0) && call.pc in {Late, Done(InitializationFailed), Done(Crashed)})
    && match call.pc
       case Start => tx0.None? && tx1.None?
       case Looked(_, token) =>
         && tx1.None?
         && (if call.op.Batch? then tx0.None? && token.None? && call.pc.generation == call.handle.generation
             else Prepared(call.op, tx0) && token.Some? && call.pc.generation == call.next.generation)
       case InTx(k) =>
         if k == 0 then Undecided(tx0) && tx1.None?
         else k == 1 && Prepared(call.op, tx0) && Undecided(tx1)
       case Waiting(k) =>
         if k == 0 then Sent(tx0) && tx1.None?
         else k == 1 && Prepared(call.op, tx0) && Sent(tx1)
       case Initialize => Prepared(call.op, tx0) && tx1.None?
       case Late => Prepared(call.op, tx0)
       case Reopening => Prepared(call.op, tx0) && TookEffect(tx1)
       case Done(outcome) => OutcomeOk(call.op, outcome, tx0, tx1)
  }

  /** The transaction changed the workspace for good: it committed, and was not only the
      marking of a row as failed. */
  predicate TookEffect(tx: Option<Tx>) {
    tx.Some? && tx.value.phase == Committed && !IsMarked(tx.value.work)
  }

  /** The transaction has not taken effect and can never do so. */
  predicate NeverTakesEffect(tx: Option<Tx>) {
    tx.None? || tx.value.phase == Running || tx.value.phase == Aborted || IsMarked(tx.value.work)
  }

  /** What an outcome promises. A transaction that is still running when its call is over is
      never sent to commit. Deleting an islet that is not there succeeds without one. */
  predicate OutcomeOk(op: Op, outcome: Outcome, tx0: Option<Tx>, tx1: Option<Tx>) {
    match outcome
    case Success =>
      || (op.Lifecycle? && op.action.Delete? && tx0.None? && tx1.None?)
      || (TookEffect(tx0) && if Initializes(op) then TookEffect(tx1) else tx1.None?)
    case Refused(_) => NeverTakesEffect(tx0) && tx1.None?
    case Unknown => Sent(tx0) && tx1.None?
    case InitializationFailed => TookEffect(tx0) && Initializes(op)
    case Unconfirmed(_) => TookEffect(tx0) && Initializes(op) && TookEffect(tx1)
    case Crashed => true
  }

  predicate CallSeen(s: State, call: Call) {
    && (call.posted ==> Seen(s, call.next.id, call.next.generation))
    && match call.pc
       case Looked(_, _) => Seen(s, Target(call).id, Target(call).generation)
       case InTx(k) => k == 1 ==> Seen(s, call.next.id, call.next.generation)
       case Waiting(k) => k == 1 ==> Seen(s, call.next.id, call.next.generation)
       case Initialize => Seen(s, call.next.id, call.next.generation)
       case Late => Seen(s, call.next.id, call.next.generation)
       case Reopening => Seen(s, call.next.id, call.next.generation)
       case _ => true
  }

  // ----------------------------------------------------------------------- invariant

  predicate LockOk(s: State, id: string, t: TxId) {
    t in s.txs && Live(s.txs[t]) && s.txs[t].id == id
  }

  ghost predicate DbOk(s: State) {
    forall id <- s.db :: IsletOk(s.db[id]) && id in s.ids
  }

  ghost predicate LocksOk(s: State) {
    forall id <- s.locks :: LockOk(s, id, s.locks[id])
  }

  ghost predicate TxsOk(s: State) {
    forall t <- s.txs :: TxOk(s, t, s.txs[t])
  }

  ghost predicate CallsOk(s: State) {
    forall c <- s.calls :: CallOk(s.calls[c], TxOf(s, c, 0), TxOf(s, c, 1)) && CallSeen(s, s.calls[c])
  }

  ghost predicate Inv(s: State) {
    DbOk(s) && LocksOk(s) && TxsOk(s) && CallsOk(s)
  }
}
