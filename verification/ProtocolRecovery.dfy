/** Who gets in, that a superseded handle never does again, and that no islet is ever lost to a
    dead end: whatever has happened to it, it can be recovered. */
module ProtocolRecovery {
  import opened Wrappers
  import opened Gateway
  import opened Protocol
  import opened ProtocolInvariant
  import opened ProtocolSteps
  import opened Serial
  import opened ProtocolRuns
  import opened ProtocolOutcomes
  import opened ProtocolReplies
  import opened ProtocolOthers
  import opened Manager

  // -------------------------------------------------------------------------- who gets in

  predicate Free(s: State, id: string) {
    At(s, id).row.Some? && id !in s.locks
  }

  predicate Recovers(op: Op) {
    op.Lifecycle? && op.action.Reset? && op.action.recovering
  }

  /** A lifecycle call gets its row exactly if the islet exists, nobody holds it, the handle is
      current, and the islet is not initializing unless the call recovers it. Otherwise it is
      over at once, with an error that says which of these failed; deleting what does not exist
      is a success. */
  lemma LockDecides(s: State, c: CallId)
    requires Inv(s) && c in s.calls && s.calls[c].pc == Start && s.calls[c].op.Lifecycle?
    ensures Step(s, LockRow(c)).Some? && c in Step(s, LockRow(c)).value.calls
    ensures var call, pc := s.calls[c], Step(s, LockRow(c)).value.calls[c].pc;
            var h, row := call.handle, At(s, call.handle.id).row;
            && (pc == InTx(0) <==>
                  Free(s, h.id) && row.value.generation == h.generation
                  && (row.value.state == Initializing ==> Recovers(call.op)))
            && (pc == Done(Success) <==> row.None? && call.op.action.Delete?)
            && (pc == Done(Refused(NotFound)) <==> row.None? && call.op.action.Reset?)
            && (pc == Done(Refused(Busy)) <==> row.Some? && !Free(s, h.id))
            && (pc == Done(Refused(Stale)) <==> Free(s, h.id) && row.value.generation != h.generation)
            && (pc == Done(Refused(Unavailable)) <==>
                  Free(s, h.id) && row.value.generation == h.generation
                  && row.value.state == Initializing && !Recovers(call.op))
  {
    CanLock(s, c);
    hide Inv;
  }

  /** A batch gets past its lookup exactly if the islet exists at the generation of the handle,
      whoever holds it and whatever its state; otherwise the error says which failed. */
  lemma LookupDecides(s: State, c: CallId)
    requires c in s.calls && s.calls[c].pc == Start && s.calls[c].op.Batch?
    ensures Step(s, Lookup(c)).Some? && c in Step(s, Lookup(c)).value.calls
    ensures var call, pc := s.calls[c], Step(s, Lookup(c)).value.calls[c].pc;
            var h, row := call.handle, At(s, call.handle.id).row;
            && (pc == Looked(h.generation, None) <==> row.Some? && row.value.generation == h.generation)
            && (pc == Done(Refused(NotFound)) <==> row.None?)
            && (pc == Done(Refused(Stale)) <==> row.Some? && row.value.generation != h.generation)
  {
  }

  /** A batch gets through `enter` exactly if the islet exists, nobody holds it, and it is active
      at the generation of the handle. Otherwise it is over at once, with an error that says
      which of these failed. */
  lemma EnterDecides(s: State, c: CallId)
    requires Inv(s) && c in s.calls && s.calls[c].pc.Looked? && s.calls[c].op.Batch?
    ensures Step(s, EnterGateway(c)).Some? && c in Step(s, EnterGateway(c)).value.calls
    ensures var call, pc := s.calls[c], Step(s, EnterGateway(c)).value.calls[c].pc;
            var h, row := call.handle, At(s, call.handle.id).row;
            && (pc == InTx(0) <==> Free(s, h.id) && row.value.generation == h.generation && row.value.state == Active)
            && (pc == Done(Refused(NotFound)) <==> row.None?)
            && (pc == Done(Refused(Busy)) <==> row.Some? && !Free(s, h.id))
            && (pc == Done(Refused(Stale)) <==> Free(s, h.id) && row.value.generation != h.generation)
            && (pc == Done(Refused(ErrorKind.IsletFailed)) <==>
                  Free(s, h.id) && row.value.generation == h.generation && row.value.state == Failed)
            && (pc == Done(Refused(Unavailable)) <==>
                  Free(s, h.id) && row.value.generation == h.generation && row.value.state == Initializing)
  {
    CanEnter(s, c);
    assert CallOk(s.calls[c], TxOf(s, c, 0), TxOf(s, c, 1));
    var h := s.calls[c].handle;
    EnterExact(At(s, h.id).row, h.id in s.locks, h.generation, None);
    assert Free(s, h.id) ==> RowOk(At(s, h.id).row.value) by {
      assert Free(s, h.id) ==> IsletOk(s.db[h.id]);
    }
    hide Inv;
  }

  // ------------------------------------------------------------------- superseded handles

  /** Once the generation of a handle has ended, no call with that handle ever opens a
      transaction again, in any continuation. */
  lemma EndedHandleStaysOut(s: State, es: seq<Event>, e: Event, c: CallId)
    requires Inv(s) && Steps(s, es).Some? && Step(Steps(s, es).value, e).Some?
    requires var s1, s2 := Steps(s, es).value, Step(Steps(s, es).value, e).value;
             && c in s2.calls && !s2.calls[c].op.CreateIslet? && EndedFor(s, s2.calls[c].handle)
             && TxId(c, 0) !in s1.txs
    ensures TxId(c, 0) !in Step(Steps(s, es).value, e).value.txs
  {
    var s1 := Steps(s, es).value;
    var s2 := Step(s1, e).value;
    var t := TxId(c, 0);
    RunLater(s, es);
    StepKeeps(s1, e);
    StepDbLater(s1, e);
    if t in s2.txs {
      NewTransactionsRun(s1, e, t);
      assert TxOk(s2, t, s2.txs[t]);
      EndedStays(s, s1, s2.calls[c].handle);
      EndedStays(s1, s2, s2.calls[c].handle);
      hide Step, Steps, DbLater, LocksOk, CallsOk;
      assert false;
    }
  }

  // ------------------------------------------------------- an operation, undisturbed

  /** `Reset`, `Recover`, `Reinitialize` or `Delete` has done its work up to a stage, alone: nothing has
      been committed since. */
  predicate Proceeds(s: State, s': State, c: CallId, op: Op, h: Handle, stage: Stage)
    requires op.Lifecycle?
  {
    && s'.db == s.db && Inside(s', c, 0, Manage(op.action, h.generation, stage))
    && s'.calls[c].op == op && s'.calls[c].handle == h
    && TxOf(s', c, 0).value.phase == Running && TxOf(s', c, 0).value.id == h.id
  }

  /** The row lets the action go ahead, and there is a generation left for it; the last one is
      9223372036854775807. */
  predicate MayManage(row: Row, action: Action) {
    if action.Delete? then row.state != Initializing
    else row.generation < 9223372036854775807 && (row.state == Initializing ==> action.recovering)
  }

  lemma ManagingStarts(s: State, c: CallId, id: string, op: Op)
    requires Inv(s) && c !in s.calls && Free(s, id) && op.Lifecycle? && MayManage(At(s, id).row.value, op.action)
    ensures var h := Handle(id, At(s, id).row.value.generation);
            var s1 := Step(s, Invoke(c, op, h));
            && s1.Some? && Step(s1.value, LockRow(c)).Some?
            && Inv(Step(s1.value, LockRow(c)).value)
            && Proceeds(s, Step(s1.value, LockRow(c)).value, c, op, h, Held)
  {
    var h := Handle(id, At(s, id).row.value.generation);
    var e := Invoke(c, op, h);
    var s1 := Step(s, e).value;
    StepKeeps(s, e);
    LockDecides(s1, c);
    StepKeeps(s1, LockRow(c));
    hide Inv;
  }

  /** A statement of a lifecycle transaction leaves it running, and commits nothing. */
  lemma StaysRunning(s: State, c: CallId, e: Event)
    requires Step(s, e).Some? && Client(e) == Some(c) && c in s.calls && s.calls[c].pc == InTx(0)
    requires e.CheckDependencies? || e.DropSchema? || e.Rebuild? || e.Revert? || e.UpdateRow?
    ensures Step(s, e).value.db == s.db && Step(s, e).value.calls == s.calls
    ensures TxId(c, 0) in s.txs && TxId(c, 0) in Step(s, e).value.txs
    ensures Step(s, e).value.txs[TxId(c, 0)].phase == Running
    ensures Step(s, e).value.txs[TxId(c, 0)].id == s.txs[TxId(c, 0)].id
  {
    hide MarkFailed, FreshRow;
  }

  lemma ManagingStep(s: State, s1: State, c: CallId, op: Op, h: Handle, stage: Stage, e: Event)
    requires op.Lifecycle? && Inv(s1) && Proceeds(s, s1, c, op, h, stage) && Client(e) == Some(c)
             && StageAllows(e, stage)
    ensures Step(s1, e).Some? && Inv(Step(s1, e).value)
    ensures Proceeds(s, Step(s1, e).value, c, op, h, StageAfter(e, op.action))
  {
    CanManage(s1, c, Manage(op.action, h.generation, stage), e);
    StepKeeps(s1, e);
    StaysRunning(s1, c, e);
    hide Inv, Step;
  }

  lemma ManagingUpdates(s: State, s1: State, c: CallId, op: Op, h: Handle, token: string)
    requires op.Lifecycle? && Inv(s1) && Proceeds(s, s1, c, op, h, Cleaned) && token != ""
    requires op.action.Reset? ==> h.generation < MAX_BIGINT
    ensures Step(s1, UpdateRow(c, token)).Some? && Inv(Step(s1, UpdateRow(c, token)).value)
    ensures Proceeds(s, Step(s1, UpdateRow(c, token)).value, c, op, h, Updated)
  {
    CanUpdate(s1, c, Manage(op.action, h.generation, Cleaned), token);
    StepKeeps(s1, UpdateRow(c, token));
    StaysRunning(s1, c, UpdateRow(c, token));
    hide Inv, Step;
  }

  lemma SamePublished(s: State, s': State)
    requires s'.db == s.db
    ensures Published(s') == Published(s)
  {
  }

  /** An islet just emptied: active, at the next generation. */
  predicate Recovered(r: Registry, r': Registry, id: string) {
    && id in r && id in r'
    && r'[id] == Islet(Row(Active, r[id].row.generation + 1, None), [])
  }

  /** What the action makes of the registry: the islet is gone, or it is empty at the next generation, and
      active, or initializing with a token; no other islet changes. */
  predicate Managed(r: Registry, r': Registry, id: string, action: Action) {
    if action.Delete? then r' == r - {id}
    else
      && id in r && id in r' && r' == r[id := r'[id]]
      && r'[id].workspace == [] && r'[id].row.generation == r[id].row.generation + 1
      && (if action.initialize then r'[id].row.state == Initializing && r'[id].row.token.Some?
          else r'[id].row.state == Active && r'[id].row.token.None?)
  }

  lemma PerformedManages(r: Registry, r': Registry, o: Operation, action: Action)
    requires Perform(r, o) == Some(r')
    requires if action.Delete? then o.Removed? else o.Emptied? && o.initialize == action.initialize
    ensures Managed(r, r', o.id, action)
  {
  }

  /** The row is only marked: nothing else changes. */
  predicate Marks(r: Registry, r': Registry, id: string) {
    id in r && r' == r[id := Islet(Row(Failed, r[id].row.generation, None), r[id].workspace)]
  }

  lemma PerformedMarks(r: Registry, r': Registry, o: Operation)
    requires Perform(r, o) == Some(r') && o.CleanupFailed?
    ensures Marks(r, r', o.id)
  {
  }

  lemma ManagingSends(s: State, s1: State, c: CallId, op: Op, h: Handle, stage: Stage)
    requires op.Lifecycle? && Proceeds(s, s1, c, op, h, stage) && (stage == Updated || stage == Marked)
    ensures Step(s1, Send(c)).Some? && Step(s1, Send(c)).value.db == s.db
    ensures var s2 := Step(s1, Send(c)).value;
            && c in s2.calls && s2.calls[c].pc == Waiting(0) && s2.calls[c].op == op && s2.calls[c].handle == h
            && TxOf(s2, c, 0).Some? && TxOf(s2, c, 0).value.phase == CommitSent
            && TxOf(s2, c, 0).value.id == h.id && TxOf(s2, c, 0).value.work == Manage(op.action, h.generation, stage)
  {
    assert Step(s1, Send(c)) == DoSend(s1, c);
    hide Step;
  }

  /** A commit that is on its way can happen, and what it makes of the registry. */
  lemma ServerCommits(s: State, c: CallId, stage: nat)
    requires Inv(s) && TxOf(s, c, stage).Some? && TxOf(s, c, stage).value.phase == CommitSent
    ensures var t := TxId(c, stage);
            && Step(s, ServerCommit(t)).Some? && Inv(Step(s, ServerCommit(t)).value)
            && var s' := Step(s, ServerCommit(t)).value;
               && s'.calls == s.calls && TxOf(s', c, stage) == Some(s.txs[t].(phase := Phase.Committed))
               && s.txs[t].id !in s'.locks
               && Perform(Published(s), OperationOf(t, s.txs[t])) == Some(Published(s'))
  {
    var t := TxId(c, stage);
    CommitRefines(s, t);
    StepKeeps(s, ServerCommit(t));
    hide Inv, Published, Perform, OperationOf;
  }

  /** What is left of the operation, from COMMIT to the answer. */
  predicate Answered(s: State, s': State, c: CallId, op: Op, h: Handle)
    requires op.Lifecycle?
  {
    && c in s'.calls && s'.calls[c].op == op && s'.calls[c].handle == h
    && h.id !in s'.locks && Managed(Published(s), Published(s'), h.id, op.action)
    && (if GoesOn(op) then s'.calls[c].pc == Initialize else s'.calls[c].pc == Done(Success))
    && (op.action.Reset? ==> s'.calls[c].next == Handle(h.id, h.generation + 1))
  }

  lemma ManagingCommits(s: State, s1: State, c: CallId, op: Op, h: Handle) returns (es: seq<Event>)
    requires op.Lifecycle? && Inv(s1) && Proceeds(s, s1, c, op, h, Updated)
    ensures Steps(s1, es).Some? && OnlyBy(es, c) && Inv(Steps(s1, es).value)
            && Answered(s, Steps(s1, es).value, c, op, h)
  {
    var t := TxId(c, 0);
    hide *;
    ManagingSends(s, s1, c, op, h, Updated);
    StepKeeps(s1, Send(c));
    var s2 := Step(s1, Send(c)).value;
    ServerCommits(s2, c, 0);
    var s3 := Step(s2, ServerCommit(t)).value;
    SamePublished(s, s2);
    TxIs(s2, c, 0);
    ManagingOperation(t, s2.txs[t], h.generation, op.action);
    PerformedManages(Published(s), Published(s3), OperationOf(t, s2.txs[t]), op.action);
    ReplyDecides(s3, c);
    StepKeeps(s3, Reply(c, false));
    var s4 := Step(s3, Reply(c, false)).value;
    SamePublished(s3, s4);
    AnswerIsGiven(s, s3, s4, c, op, h);
    NothingToDo(s4, c);
    ClientsOf(c);
    es := Before(s3, Reply(c, false), [], c);
    es := Before(s2, ServerCommit(t), es, c);
    es := Before(s1, Send(c), es, c);
  }

  lemma AnswerIsGiven(s: State, s3: State, s4: State, c: CallId, op: Op, h: Handle)
    requires op.Lifecycle? && c in s3.calls && c in s4.calls
    requires s3.calls[c].pc == Waiting(0) && s3.calls[c].op == op && s3.calls[c].handle == h
    requires TxOf(s3, c, 0).Some? && TxOf(s3, c, 0).value.phase == Committed
    requires TxOf(s3, c, 0).value.work == Manage(op.action, h.generation, Updated)
    requires AnswersTo(s3.calls[c], TxOf(s3, c, 0).value, s4.calls[c])
    requires h.id !in s4.locks && Managed(Published(s), Published(s4), h.id, op.action)
    ensures Answered(s, s4, c, op, h)
  {
    hide Published, Managed;
  }

  lemma ManagingOperation(t: TxId, tx: Tx, generation: nat, action: Action)
    requires tx.work == Manage(action, generation, Updated)
    ensures var o := OperationOf(t, tx);
            o.id == tx.id && if action.Delete? then o.Removed? else o.Emptied? && o.initialize == action.initialize
  {
  }

  lemma TxIs(s: State, c: CallId, stage: nat)
    requires TxOf(s, c, stage).Some?
    ensures TxId(c, stage) in s.txs && s.txs[TxId(c, stage)] == TxOf(s, c, stage).value
  {
  }

  lemma ClientsOf(c: CallId)
    ensures Client(Send(c)) == Some(c) && Client(Reply(c, false)) == Some(c)
    ensures forall t :: Client(ServerCommit(t)).None?
  {
  }

  function Left(stage: Stage): nat {
    match stage
    case Held => 4
    case Checked => 3
    case Dropped => 2
    case Cleaned => 1
    case _ => 0
  }

  /** Steps of one call and of the server. */
  predicate OnlyBy(es: seq<Event>, c: CallId) {
    forall e <- es :: Client(e).None? || Client(e) == Some(c)
  }

  lemma NothingToDo(s: State, c: CallId)
    ensures Steps(s, []) == Some(s) && OnlyBy([], c)
  {
  }

  lemma Before(s: State, e: Event, es: seq<Event>, c: CallId) returns (all: seq<Event>)
    requires Step(s, e).Some? && OnlyBy(es, c) && (Client(e).None? || Client(e) == Some(c))
    ensures Steps(s, all) == Steps(Step(s, e).value, es) && OnlyBy(all, c)
  {
    all := [e] + es;
    assert all[1..] == es;
  }

  /** The rest of the operation from any stage on, undisturbed. */
  lemma {:induction false} ManagingEnds(s: State, s1: State, c: CallId, op: Op, h: Handle, stage: Stage)
    returns (es: seq<Event>)
    requires op.Lifecycle? && Inv(s1) && Proceeds(s, s1, c, op, h, stage) && stage != Marked
    requires op.action.Reset? ==> h.generation < MAX_BIGINT
    ensures Steps(s1, es).Some? && OnlyBy(es, c) && Inv(Steps(s1, es).value)
            && Answered(s, Steps(s1, es).value, c, op, h)
    decreases Left(stage)
  {
    hide Inv, Step, Proceeds, Answered, Steps, OnlyBy;
    if stage == Updated {
      es := ManagingCommits(s, s1, c, op, h);
    } else if stage == Cleaned {
      ManagingUpdates(s, s1, c, op, h, "t");
      es := ManagingEnds(s, Step(s1, UpdateRow(c, "t")).value, c, op, h, Updated);
      es := Before(s1, UpdateRow(c, "t"), es, c);
    } else {
      var e := if stage == Held then CheckDependencies(c, true)
               else if stage == Checked then DropSchema(c)
               else Rebuild(c);
      ManagingStep(s, s1, c, op, h, stage, e);
      es := ManagingEnds(s, Step(s1, e).value, c, op, h, StageAfter(e, op.action));
      es := Before(s1, e, es, c);
    }
  }

  /** The whole operation on an islet that nobody holds, up to its answer. */
  lemma FreeIsManaged(s: State, c: CallId, id: string, op: Op) returns (es: seq<Event>)
    requires Inv(s) && c !in s.calls && Free(s, id) && op.Lifecycle? && MayManage(At(s, id).row.value, op.action)
    ensures Steps(s, es).Some? && OnlyBy(es, c) && Inv(Steps(s, es).value)
    ensures Answered(s, Steps(s, es).value, c, op, Handle(id, At(s, id).row.value.generation))
  {
    var h := Handle(id, At(s, id).row.value.generation);
    var e := Invoke(c, op, h);
    ManagingStarts(s, c, id, op);
    hide Inv, Step, Proceeds, Answered, Steps, OnlyBy;
    var s1 := Step(s, e).value;
    es := ManagingEnds(s, Step(s1, LockRow(c)).value, c, op, h, Held);
    es := Before(s1, LockRow(c), es, c);
    es := Before(s, e, es, c);
  }

  // ------------------------------------------------------------------ a cleanup that goes wrong

  lemma MarkingCommits(s: State, s1: State, c: CallId, op: Op, h: Handle) returns (es: seq<Event>)
    requires op.Lifecycle? && Inv(s1) && Proceeds(s, s1, c, op, h, Marked)
    ensures Steps(s1, es).Some? && OnlyBy(es, c) && Inv(Steps(s1, es).value)
    ensures var s' := Steps(s1, es).value;
            && c in s'.calls && s'.calls[c].pc == Done(Refused(ErrorKind.Lifecycle))
            && h.id !in s'.locks && Marks(Published(s), Published(s'), h.id)
  {
    var t := TxId(c, 0);
    hide *;
    ManagingSends(s, s1, c, op, h, Marked);
    StepKeeps(s1, Send(c));
    var s2 := Step(s1, Send(c)).value;
    ServerCommits(s2, c, 0);
    var s3 := Step(s2, ServerCommit(t)).value;
    SamePublished(s, s2);
    TxIs(s2, c, 0);
    MarkingOperation(t, s2.txs[t], h.generation, op.action);
    PerformedMarks(Published(s), Published(s3), OperationOf(t, s2.txs[t]));
    ReplyDecides(s3, c);
    StepKeeps(s3, Reply(c, false));
    var s4 := Step(s3, Reply(c, false)).value;
    SamePublished(s3, s4);
    MarkIsAnswered(s3, s4, c, op, h);
    NothingToDo(s4, c);
    ClientsOf(c);
    es := Before(s3, Reply(c, false), [], c);
    es := Before(s2, ServerCommit(t), es, c);
    es := Before(s1, Send(c), es, c);
  }

  lemma MarkingOperation(t: TxId, tx: Tx, generation: nat, action: Action)
    requires tx.work == Manage(action, generation, Marked)
    ensures OperationOf(t, tx).CleanupFailed? && OperationOf(t, tx).id == tx.id
  {
  }

  lemma MarkIsAnswered(s3: State, s4: State, c: CallId, op: Op, h: Handle)
    requires op.Lifecycle? && c in s3.calls && c in s4.calls
    requires s3.calls[c].pc == Waiting(0) && s3.calls[c].op == op
    requires TxOf(s3, c, 0).Some? && TxOf(s3, c, 0).value.work == Manage(op.action, h.generation, Marked)
    requires AnswersTo(s3.calls[c], TxOf(s3, c, 0).value, s4.calls[c])
    ensures s4.calls[c].pc == Done(Refused(ErrorKind.Lifecycle))
  {
  }

  /** The steps in which a cleanup finds out that it cannot be done: the dependency check is not clear, or
      the drop fails, or what follows the drop. */
  predicate Stumbles(before: seq<Event>, c: CallId) {
    || before == [CheckDependencies(c, false)]
    || before == [CheckDependencies(c, true), Revert(c)]
    || before == [CheckDependencies(c, true), DropSchema(c), Revert(c)]
  }

  lemma {:induction false} StumblingEnds(s: State, s1: State, c: CallId, op: Op, h: Handle, stage: Stage,
                                         todo: seq<Event>)
    returns (es: seq<Event>)
    requires op.Lifecycle? && Inv(s1) && Proceeds(s, s1, c, op, h, stage)
    requires if todo == [] then stage == Marked
             else Client(todo[0]) == Some(c) && StageAllows(todo[0], stage)
    requires forall i | 0 < i < |todo| ::
               Client(todo[i]) == Some(c) && StageAllows(todo[i], StageAfter(todo[i - 1], op.action))
    requires todo != [] ==> StageAfter(todo[|todo| - 1], op.action) == Marked
    ensures Steps(s1, es).Some? && OnlyBy(es, c) && Inv(Steps(s1, es).value)
    ensures var s' := Steps(s1, es).value;
            && c in s'.calls && s'.calls[c].pc == Done(Refused(ErrorKind.Lifecycle))
            && h.id !in s'.locks && Marks(Published(s), Published(s'), h.id)
    decreases |todo|
  {
    hide Inv, Step, Proceeds, Steps, OnlyBy, Marks, Published;
    if todo == [] {
      es := MarkingCommits(s, s1, c, op, h);
    } else {
      ManagingStep(s, s1, c, op, h, stage, todo[0]);
      es := StumblingEnds(s, Step(s1, todo[0]).value, c, op, h, StageAfter(todo[0], op.action), todo[1..]);
      es := Before(s1, todo[0], es, c);
    }
  }

  lemma StumblesInOrder(before: seq<Event>, c: CallId, action: Action)
    requires Stumbles(before, c)
    ensures before != [] && Client(before[0]) == Some(c) && StageAllows(before[0], Held)
    ensures forall i | 0 < i < |before| ::
              Client(before[i]) == Some(c) && StageAllows(before[i], StageAfter(before[i - 1], action))
    ensures StageAfter(before[|before| - 1], action) == Marked
  {
  }

  lemma LifecycleClients(c: CallId, op: Op, h: Handle)
    ensures Client(Invoke(c, op, h)) == Some(c) && Client(LockRow(c)) == Some(c)
  {
  }

  /** Wherever a cleanup stumbles, it goes back and marks the row, and says so; workspace and generation
      are as they were. */
  lemma StumblingMarks(s: State, c: CallId, id: string, op: Op, before: seq<Event>) returns (es: seq<Event>)
    requires Inv(s) && c !in s.calls && Free(s, id) && op.Lifecycle? && MayManage(At(s, id).row.value, op.action)
    requires Stumbles(before, c)
    ensures Steps(s, es).Some? && OnlyBy(es, c) && Inv(Steps(s, es).value)
    ensures var s' := Steps(s, es).value;
            && c in s'.calls && s'.calls[c].pc == Done(Refused(ErrorKind.Lifecycle))
            && id !in s'.locks && Marks(Published(s), Published(s'), id)
  {
    hide Inv, Step, Proceeds, Steps, OnlyBy, Marks, Published, MayManage;
    var h := Handle(id, At(s, id).row.value.generation);
    var e := Invoke(c, op, h);
    ManagingStarts(s, c, id, op);
    StumblesInOrder(before, c, op.action);
    hide StageAllows, StageAfter, Client, Stumbles;
    var s1 := Step(s, e).value;
    LifecycleClients(c, op, h);
    es := StumblingEnds(s, Step(s1, LockRow(c)).value, c, op, h, Held, before);
    es := Before(s1, LockRow(c), es, c);
    es := Before(s, e, es, c);
  }

  // ----------------------------------------------------------------------- no dead ends

  /** The server ends the transaction that holds an islet. */
  lemma Freed(s: State, id: string)
    requires Inv(s) && At(s, id).row.Some? && id in s.locks
    ensures Step(s, ServerAbort(s.locks[id])).Some?
    ensures var s' := Step(s, ServerAbort(s.locks[id])).value; s'.db == s.db && s'.calls == s.calls && Free(s', id)
  {
    assert LockOk(s, id, s.locks[id]);
  }

  const RECOVER := Op.Lifecycle(Reset(false, true), [])

  /** No reachable state is a dead end for an islet: whatever was going on and went wrong (a
      holder that hangs, an initialisation that was abandoned, a failed cleanup), there is a
      way on in which a Recover succeeds and leaves it empty and active at the next generation, as long
      as there is one. */
  lemma EveryIsletCanBeRecovered(s: State, c: CallId, id: string) returns (es: seq<Event>)
    requires Inv(s) && c !in s.calls && At(s, id).row.Some? && At(s, id).row.value.generation < 9223372036854775807
    ensures Steps(s, es).Some? && Recovered(Published(s), Published(Steps(s, es).value), id)
    ensures c in Steps(s, es).value.calls && Steps(s, es).value.calls[c].op == RECOVER
            && Steps(s, es).value.calls[c].pc == Done(Success)
  {
    hide Inv, Step, Steps, OnlyBy, Published, Recovered, Answered;
    if id in s.locks {
      var e := ServerAbort(s.locks[id]);
      Freed(s, id);
      StepKeeps(s, e);
      var s1 := Step(s, e).value;
      SamePublished(s, s1);
      es := FreeIsManaged(s1, c, id, RECOVER);
      AnsweredRecovers(s1, Steps(s1, es).value, c, id);
      es := Before(s, e, es, c);
    } else {
      es := FreeIsManaged(s, c, id, RECOVER);
      AnsweredRecovers(s, Steps(s, es).value, c, id);
    }
  }

  lemma AnsweredRecovers(s: State, s': State, c: CallId, id: string)
    requires Inv(s) && Inv(s') && Free(s, id) && Answered(s, s', c, RECOVER, Handle(id, At(s, id).row.value.generation))
    ensures Recovered(Published(s), Published(s'), id)
    ensures c in s'.calls && s'.calls[c].op == RECOVER && s'.calls[c].pc == Done(Success)
  {
  }
}
