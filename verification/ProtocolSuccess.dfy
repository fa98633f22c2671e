/**
 Every operation can be carried through: from every reachable state, with nobody else in the way, a
 batch and an initialisation run to the end, and the call says so. What they commit is all of their
 statements, and nothing else.
 */
module ProtocolSuccess {
  import opened Wrappers
  import opened Gateway
  import opened Protocol
  import opened ProtocolInvariant
  import opened ProtocolSteps
  import opened Serial
  import opened ProtocolOthers
  import opened ProtocolReplies
  import opened Manager
  import opened ProtocolRecovery

  // ------------------------------------------------------------------------ the statements

  /** A batch is in its transaction, and nothing has been committed since `base`. */
  predicate IsRunning(base: State, s: State, c: CallId, call: Call, stage: nat, work: Work) {
    && s.db == base.db && c in s.calls && s.calls[c] == call && call.pc == InTx(stage) && stage <= 1
    && TxOf(s, c, stage).Some? && TxOf(s, c, stage).value.work == work && TxOf(s, c, stage).value.phase == Running
    && TxOf(s, c, stage).value.id == Target(call).id
    && work.Run? && work.sql == call.op.sql && work.generation == Target(call).generation
  }

  lemma Executes(base: State, s: State, c: CallId, call: Call, stage: nat, work: Work)
    requires Inv(s) && IsRunning(base, s, c, call, stage, work) && !work.finished && work.next < |work.sql|
    ensures Step(s, Exec(c)).Some? && Inv(Step(s, Exec(c)).value)
    ensures IsRunning(base, Step(s, Exec(c)).value, c, call, stage, work.(next := work.next + 1))
  {
    assert Step(s, Exec(c)) == DoExec(s, c);
    hide Inv, Step;
    CanExec(s, c, stage, work);
    StepKeeps(s, Exec(c));
  }

  lemma Finishes(base: State, s: State, c: CallId, call: Call, work: Work)
    requires Inv(s) && IsRunning(base, s, c, call, 1, work) && !work.finished && work.next == |work.sql|
    ensures Step(s, FinishGateway(c)).Some? && Inv(Step(s, FinishGateway(c)).value)
    ensures IsRunning(base, Step(s, FinishGateway(c)).value, c, call, 1, work.(finished := true))
  {
    hide Inv, Finish;
    assert Step(s, FinishGateway(c)) == DoFinish(s, c);
    hide Step;
    CanFinish(s, c, work);
    StepKeeps(s, FinishGateway(c));
  }

  /** What a batch makes of the registry: the islet is active at the same generation, and has all the
      statements, in order, after those it had. */
  predicate HasRun(r: Registry, r': Registry, h: Handle, author: CallId, sql: seq<string>) {
    && h.id in r && h.id in r'
    && r' == r[h.id := r'[h.id]]
    && r'[h.id].row == Row(Active, h.generation, None)
    && |r'[h.id].workspace| == |r[h.id].workspace| + |sql|
    && (forall i | 0 <= i < |r[h.id].workspace| :: r'[h.id].workspace[i] == r[h.id].workspace[i])
    && (forall i | 0 <= i < |sql| ::
          r'[h.id].workspace[|r[h.id].workspace| + i] == Write(author, h.generation, sql[i]))
  }

  lemma PerformedRuns(r: Registry, r': Registry, t: TxId, tx: Tx, h: Handle)
    requires Perform(r, OperationOf(t, tx)) == Some(r') && tx.work.Run? && tx.id == h.id
             && tx.work.generation == h.generation
    ensures HasRun(r, r', h, t.call, tx.work.sql)
  {
  }

  /** The commit has been answered. */
  predicate HasAnswer(base: State, s: State, c: CallId, call: Call, stage: nat) {
    && c in s.calls && s.calls[c].op == call.op && s.calls[c].handle == call.handle && s.calls[c].next == call.next
    && s.calls[c].pc == (if stage == 0 then Done(Success) else Reopening)
    && Target(call).id !in s.locks
    && (call.op.Batch? || GoesOn(call.op))
    && HasRun(Published(base), Published(s), Target(call), c, call.op.sql)
  }

  lemma RunSends(base: State, s: State, c: CallId, call: Call, stage: nat, work: Work)
    requires IsRunning(base, s, c, call, stage, work) && work.next == |work.sql| && (stage == 1 ==> work.finished)
    ensures Step(s, Send(c)).Some?
    ensures var s1 := Step(s, Send(c)).value;
            && s1.db == base.db && c in s1.calls && s1.calls[c] == call.(pc := Waiting(stage))
            && TxOf(s1, c, stage).Some? && TxOf(s1, c, stage).value.phase == CommitSent
            && TxOf(s1, c, stage).value.id == Target(call).id && TxOf(s1, c, stage).value.work == work
  {
    assert Step(s, Send(c)) == DoSend(s, c);
    hide Step;
  }

  lemma RunAnswered(base: State, s3: State, s4: State, c: CallId, call: Call, stage: nat)
    requires stage <= 1 && c in s3.calls && c in s4.calls && s3.calls[c] == call.(pc := Waiting(stage))
    requires TxOf(s3, c, stage).Some? && TxOf(s3, c, stage).value.phase == Committed
    requires AnswersTo(s3.calls[c], TxOf(s3, c, stage).value, s4.calls[c])
    requires (stage == 0 <==> call.op.Batch?) && (stage == 1 ==> GoesOn(call.op)) && Target(call).id !in s4.locks
    requires HasRun(Published(base), Published(s4), Target(call), c, call.op.sql)
    ensures HasAnswer(base, s4, c, call, stage)
  {
    hide Published, HasRun;
  }

  lemma RunCommits(base: State, s: State, c: CallId, call: Call, stage: nat, work: Work) returns (es: seq<Event>)
    requires Inv(s) && IsRunning(base, s, c, call, stage, work) && work.next == |work.sql|
             && (stage == 1 ==> work.finished)
    requires (stage == 0 <==> call.op.Batch?) && (stage == 1 ==> GoesOn(call.op))
    ensures Steps(s, es).Some? && OnlyBy(es, c) && Inv(Steps(s, es).value)
            && HasAnswer(base, Steps(s, es).value, c, call, stage)
  {
    var t := TxId(c, stage);
    hide Inv, Step, Steps, OnlyBy, HasAnswer, HasRun, Published, AnswersTo, TxOf, OperationOf, Perform;
    hide Target, GoesOn, Client;
    RunningFacts(base, s, c, call, stage, work);
    RunSends(base, s, c, call, stage, work);
    StepKeeps(s, Send(c));
    var s2 := Step(s, Send(c)).value;
    ServerCommits(s2, c, stage);
    var s3 := Step(s2, ServerCommit(t)).value;
    SamePublished(base, s2);
    TxIs(s2, c, stage);
    PerformedRuns(Published(base), Published(s3), t, s2.txs[t], Target(call));
    ReplyDecides(s3, c);
    StepKeeps(s3, Reply(c, false));
    var s4 := Step(s3, Reply(c, false)).value;
    SamePublished(s3, s4);
    RunAnswered(base, s3, s4, c, call, stage);
    NothingToDo(s4, c);
    ClientsOf(c);
    es := Before(s3, Reply(c, false), [], c);
    es := Before(s2, ServerCommit(t), es, c);
    es := Before(s, Send(c), es, c);
  }

  lemma RunningFacts(base: State, s: State, c: CallId, call: Call, stage: nat, work: Work)
    requires IsRunning(base, s, c, call, stage, work)
    ensures stage <= 1 && work.Run? && work.sql == call.op.sql && work.generation == Target(call).generation
  {
  }

  /** The statements that are left, `finish` for an initialisation, and the commit. */
  lemma {:induction false} RunEnds(base: State, s: State, c: CallId, call: Call, stage: nat, work: Work)
    returns (es: seq<Event>)
    requires Inv(s) && IsRunning(base, s, c, call, stage, work) && !work.finished && work.next <= |work.sql|
    requires (stage == 0 <==> call.op.Batch?) && (stage == 1 ==> GoesOn(call.op))
    ensures Steps(s, es).Some? && OnlyBy(es, c) && Inv(Steps(s, es).value)
            && HasAnswer(base, Steps(s, es).value, c, call, stage)
    decreases |work.sql| - work.next
  {
    RunningFacts(base, s, c, call, stage, work);
    hide Inv, Step, Steps, OnlyBy, IsRunning, HasAnswer, GoesOn;
    if work.next < |work.sql| {
      Executes(base, s, c, call, stage, work);
      es := RunEnds(base, Step(s, Exec(c)).value, c, call, stage, work.(next := work.next + 1));
      es := Before(s, Exec(c), es, c);
    } else if stage == 1 {
      Finishes(base, s, c, call, work);
      es := RunCommits(base, Step(s, FinishGateway(c)).value, c, call, stage, work.(finished := true));
      es := Before(s, FinishGateway(c), es, c);
    } else {
      es := RunCommits(base, s, c, call, stage, work);
    }
  }

  // ----------------------------------------------------------------------------- a batch

  /** A call that has begun. */
  predicate Has(base: State, s: State, c: CallId, call: Call) {
    s.db == base.db && s.locks == base.locks && c in s.calls && s.calls[c] == call
  }

  lemma BatchLooksUp(s: State, c: CallId, h: Handle, sql: seq<string>)
    requires Inv(s) && c !in s.calls && Free(s, h.id) && At(s, h.id).row == Some(Row(Active, h.generation, None))
    ensures var e := Invoke(c, Op.Batch(sql), h);
            && Step(s, e).Some? && Inv(Step(s, e).value)
            && Step(Step(s, e).value, Lookup(c)).Some?
            && var s2 := Step(Step(s, e).value, Lookup(c)).value;
               Inv(s2) && Has(s, s2, c, Call(Op.Batch(sql), h, h, Looked(h.generation, None), false, None))
  {
    var e := Invoke(c, Op.Batch(sql), h);
    hide Inv;
    var s1 := Step(s, e).value;
    StepKeeps(s, e);
    CanInvoke(s, c, Op.Batch(sql), h);
    LookupDecides(s1, c);
    StepKeeps(s1, Lookup(c));
    assert Step(s1, Lookup(c)) == DoLookup(s1, c);
  }

  lemma BatchEnters(base: State, s: State, c: CallId, h: Handle, sql: seq<string>)
    requires Inv(s) && Has(base, s, c, Call(Op.Batch(sql), h, h, Looked(h.generation, None), false, None))
    requires Free(base, h.id) && At(base, h.id).row == Some(Row(Active, h.generation, None))
    ensures Step(s, EnterGateway(c)).Some? && Inv(Step(s, EnterGateway(c)).value)
    ensures IsRunning(base, Step(s, EnterGateway(c)).value, c, Call(Op.Batch(sql), h, h, InTx(0), false, None), 0,
                      Run(h.generation, None, sql, 0, false))
  {
    hide Inv, Enter;
    EnterDecides(s, c);
    assert Step(s, EnterGateway(c)) == DoEnter(s, c);
    hide Step;
    StepKeeps(s, EnterGateway(c));
  }

  /** From every reachable state: a batch with the handle of an active islet that nobody holds, undisturbed,
      succeeds, and adds its statements to the workspace. */
  lemma BatchSucceeds(s: State, c: CallId, h: Handle, sql: seq<string>) returns (es: seq<Event>)
    requires Inv(s) && c !in s.calls && Free(s, h.id) && At(s, h.id).row == Some(Row(Active, h.generation, None))
    ensures Steps(s, es).Some? && OnlyBy(es, c)
    ensures var s' := Steps(s, es).value;
            && c in s'.calls && s'.calls[c].op == Op.Batch(sql) && s'.calls[c].handle == h
            && s'.calls[c].pc == Done(Success)
            && HasRun(Published(s), Published(s'), h, c, sql)
  {
    hide Inv, Step, Steps, OnlyBy, IsRunning, Has, HasRun, Published;
    var e := Invoke(c, Op.Batch(sql), h);
    BatchLooksUp(s, c, h, sql);
    var s1 := Step(s, e).value;
    var s2 := Step(s1, Lookup(c)).value;
    BatchEnters(s, s2, c, h, sql);
    es := RunEnds(s, Step(s2, EnterGateway(c)).value, c, Call(Op.Batch(sql), h, h, InTx(0), false, None), 0,
                  Run(h.generation, None, sql, 0, false));
    es := Before(s2, EnterGateway(c), es, c);
    es := Before(s1, Lookup(c), es, c);
    es := Before(s, e, es, c);
  }

  // -------------------------------------------------------------------- an initialisation

  /** The islet is there, empty, and still to be initialised. */
  predicate IsPrepared(s: State, c: CallId) {
    && c in s.calls && s.calls[c].pc == Initialize && GoesOn(s.calls[c].op)
    && var h := s.calls[c].next;
       && h.id !in s.locks && At(s, h.id).row.Some? && At(s, h.id).row.value.state == Initializing
       && At(s, h.id).row.value.generation == h.generation
  }

  lemma FindsToken(s: State, c: CallId) returns (token: string, h: Handle)
    requires Inv(s) && IsPrepared(s, c)
    ensures h == s.calls[c].next == Target(s.calls[c]) && TxOf(s, c, 1).None?
    ensures At(s, h.id).row == Some(Row(Initializing, h.generation, Some(token)))
    ensures DoLookup(s, c) == Some(SetPc(s, c, Looked(h.generation, Some(token))))
  {
    h := s.calls[c].next;
    assert IsletOk(s.db[h.id]);
    assert TxOf(s, c, 1).None? by {
      assert CallOk(s.calls[c], TxOf(s, c, 0), TxOf(s, c, 1));
    }
    hide Inv;
    token := At(s, h.id).row.value.token.value;
    InitialLookupDecides(s, c);
  }

  lemma EntersWith(s: State, c: CallId, h: Handle, token: string)
    requires c in s.calls && s.calls[c].pc == Looked(h.generation, Some(token)) && Target(s.calls[c]) == h
    requires RunStage(s.calls[c].op) == 1 && TxOf(s, c, 1).None? && h.id !in s.locks
    requires At(s, h.id).row == Some(Row(Initializing, h.generation, Some(token)))
    ensures DoEnter(s, c).Some?
    ensures IsRunning(s, DoEnter(s, c).value, c, s.calls[c].(pc := InTx(1)), 1,
                      Run(h.generation, Some(token), s.calls[c].op.sql, 0, false))
  {
    EnterExact(At(s, h.id).row, false, h.generation, Some(token));
    hide Enter;
  }

  lemma Enters(s: State, c: CallId) returns (call: Call, token: string)
    requires Inv(s) && IsPrepared(s, c)
    ensures Step(s, Lookup(c)).Some? && Inv(Step(s, Lookup(c)).value)
    ensures Step(Step(s, Lookup(c)).value, EnterGateway(c)).Some?
    ensures var s2 := Step(Step(s, Lookup(c)).value, EnterGateway(c)).value;
            && call == s.calls[c].(pc := InTx(1)) && Inv(s2)
            && IsRunning(s, s2, c, call, 1, Run(call.next.generation, Some(token), call.op.sql, 0, false))
  {
    var h: Handle;
    call := s.calls[c].(pc := InTx(1));
    token, h := FindsToken(s, c);
    hide Inv;
    assert Step(s, Lookup(c)) == DoLookup(s, c);
    StepKeeps(s, Lookup(c));
    var s1 := SetPc(s, c, Looked(h.generation, Some(token)));
    hide DoLookup, DoEnter;
    EntersWith(s1, c, h, token);
    assert Step(s1, EnterGateway(c)) == DoEnter(s1, c);
    StepKeeps(s1, EnterGateway(c));
    hide Step;
  }

  /** Undisturbed, an initialisation commits all its statements and gets its answer. */
  lemma InitialisationCommits(s: State, c: CallId) returns (es: seq<Event>)
    requires Inv(s) && IsPrepared(s, c)
    ensures Steps(s, es).Some? && OnlyBy(es, c) && Inv(Steps(s, es).value)
    ensures HasAnswer(s, Steps(s, es).value, c, s.calls[c].(pc := InTx(1)), 1)
  {
    var call, token := Enters(s, c);
    NotABatch(s.calls[c].op);
    hide Inv, Step, Steps, OnlyBy, IsRunning, HasAnswer;
    var s1 := Step(s, Lookup(c)).value;
    var work := Run(call.next.generation, Some(token), call.op.sql, 0, false);
    es := RunEnds(s, Step(s1, EnterGateway(c)).value, c, call, 1, work);
    es := Before(s1, EnterGateway(c), es, c);
    es := Before(s, Lookup(c), es, c);
  }

  lemma NotABatch(op: Op)
    requires GoesOn(op)
    ensures !op.Batch?
  {
  }

  /** The last read finds the islet. */
  lemma Reopens(s: State, c: CallId)
    requires c in s.calls && s.calls[c].pc == Reopening && At(s, s.calls[c].next.id).row.Some?
    ensures Step(s, Reopen(c)).Some?
    ensures var s' := Step(s, Reopen(c)).value;
            && s'.db == s.db && c in s'.calls && s'.calls[c].pc == Done(Success)
            && s'.calls[c].op == s.calls[c].op && s'.calls[c].handle == s.calls[c].handle
            && s'.calls[c].next == s.calls[c].next
  {
  }

  /** And then it succeeds. */
  lemma InitialisationSucceeds(s: State, c: CallId) returns (es: seq<Event>)
    requires Inv(s) && IsPrepared(s, c)
    ensures Steps(s, es).Some? && OnlyBy(es, c) && Inv(Steps(s, es).value)
    ensures var s', call := Steps(s, es).value, s.calls[c];
            && c in s'.calls && s'.calls[c].op == call.op && s'.calls[c].handle == call.handle
            && s'.calls[c].pc == Done(Success)
            && HasRun(Published(s), Published(s'), call.next, c, call.op.sql)
  {
    es := InitialisationCommits(s, c);
    var s1 := Steps(s, es).value;
    AnswerFacts(s, s1, c, s.calls[c].(pc := InTx(1)));
    hide Inv, Step, Steps, OnlyBy, HasAnswer, HasRun, Published, IsPrepared;
    Reopens(s1, c);
    StepKeeps(s1, Reopen(c));
    SamePublished(s1, Step(s1, Reopen(c)).value);
    es := After(s, es, Reopen(c), c);
  }

  lemma AnswerFacts(base: State, s: State, c: CallId, call: Call)
    requires HasAnswer(base, s, c, call, 1) && !call.op.Batch?
    ensures c in s.calls && s.calls[c].pc == Reopening && s.calls[c].op == call.op && s.calls[c].handle == call.handle
    ensures s.calls[c].next == call.next && At(s, call.next.id).row.Some?
    ensures HasRun(Published(base), Published(s), call.next, c, call.op.sql)
  {
  }

  lemma {:induction false} After(s: State, es: seq<Event>, e: Event, c: CallId) returns (all: seq<Event>)
    requires Steps(s, es).Some? && OnlyBy(es, c) && Client(e) == Some(c) && Step(Steps(s, es).value, e).Some?
    ensures Steps(s, all) == Step(Steps(s, es).value, e) && OnlyBy(all, c)
    decreases |es|
  {
    hide Step;
    if es == [] {
      all := Before(s, e, [], c);
    } else {
      assert es[0] in es && forall f <- es[1..] :: f in es;
      all := After(Step(s, es[0]).value, es[1..], e, c);
      all := Before(s, es[0], all, c);
    }
  }

  lemma {:induction false} Joined(s: State, es: seq<Event>, fs: seq<Event>, c: CallId)
    requires Steps(s, es).Some? && OnlyBy(es, c) && OnlyBy(fs, c)
    ensures Steps(s, es + fs) == Steps(Steps(s, es).value, fs) && OnlyBy(es + fs, c)
    decreases |es|
  {
    hide Step, Client;
    if es == [] {
      assert es + fs == fs;
    } else {
      assert (es + fs)[0] == es[0] && (es + fs)[1..] == es[1..] + fs;
      assert forall f <- es[1..] :: f in es;
      Joined(Step(s, es[0]).value, es[1..], fs, c);
    }
  }

  // ------------------------------------------------------------------ what may still change

  /** `Reinitialize` of an islet that nobody holds and that is not initializing: undisturbed it succeeds,
      and leaves at the next generation exactly the statements of the initialisation. */
  lemma ReinitializeSucceeds(s: State, c: CallId, id: string, sql: seq<string>) returns (es: seq<Event>)
    requires Inv(s) && c !in s.calls && Free(s, id) && MayManage(At(s, id).row.value, Reset(true, false))
    ensures Steps(s, es).Some? && OnlyBy(es, c)
    ensures var s' := Steps(s, es).value;
            && c in s'.calls && s'.calls[c].op == Op.Lifecycle(Reset(true, false), sql)
            && s'.calls[c].pc == Done(Success)
            && IsInitialised(Published(s), Published(s'), id, At(s, id).row.value.generation + 1, c, sql)
  {
    var op := Op.Lifecycle(Reset(true, false), sql);
    var h := Handle(id, At(s, id).row.value.generation);
    hide Inv, Step, Steps, OnlyBy, Answered, HasRun, Published, MayManage, IsPrepared, IsInitialised;
    es := FreeIsManaged(s, c, id, op);
    var s1 := Steps(s, es).value;
    ManagedIsPrepared(s, s1, c, op, h);
    var rest := InitialisationSucceeds(s1, c);
    ManagedIsInitialised(s, s1, Published(Steps(s1, rest).value), c, op, h);
    Joined(s, es, rest, c);
    es := es + rest;
  }

  /** The islet is at this generation, active, and has exactly these statements; no other has changed. */
  predicate IsInitialised(r: Registry, r': Registry, id: string, generation: nat, author: CallId, sql: seq<string>) {
    && id in r' && r' == r[id := r'[id]] && r'[id].row == Row(Active, generation, None)
    && |r'[id].workspace| == |sql|
    && forall i | 0 <= i < |sql| :: r'[id].workspace[i] == Write(author, generation, sql[i])
  }

  lemma ManagedIsPrepared(s: State, s1: State, c: CallId, op: Op, h: Handle)
    requires op.Lifecycle? && op.action == Reset(true, false) && Inv(s1) && Answered(s, s1, c, op, h)
    requires h.id in Published(s) && Published(s)[h.id].row.generation == h.generation
    ensures IsPrepared(s1, c) && s1.calls[c].op == op && s1.calls[c].next == Handle(h.id, h.generation + 1)
  {
    hide Inv;
  }

  lemma ManagedIsInitialised(s: State, s1: State, r': Registry, c: CallId, op: Op, h: Handle)
    requires op.Lifecycle? && op.action == Reset(true, false) && Answered(s, s1, c, op, h)
    requires HasRun(Published(s1), r', Handle(h.id, h.generation + 1), c, op.sql)
    ensures IsInitialised(Published(s), r', h.id, h.generation + 1, c, op.sql)
  {
    hide Published;
  }

  // ---------------------------------------------------------------------------- a creation

  /** The islet is new: empty at the first generation, active, or initializing with a token. */
  predicate IsNew(r: Registry, r': Registry, id: string, initialize: bool) {
    && id !in r && id in r' && r' == r[id := r'[id]]
    && r'[id].workspace == [] && r'[id].row.generation == 1
    && (if initialize then r'[id].row.state == Initializing && r'[id].row.token.Some?
        else r'[id].row.state == Active && r'[id].row.token.None?)
  }

  lemma PerformedCreates(r: Registry, r': Registry, t: TxId, tx: Tx)
    requires Perform(r, OperationOf(t, tx)) == Some(r') && tx.work.Create?
    ensures IsNew(r, r', tx.id, tx.work.initialize)
  {
  }

  /** The call is inside its creation, or waits for the answer. */
  predicate IsCreating(base: State, s: State, c: CallId, op: Op, id: string, pc: Pc, phase: Phase) {
    && op.CreateIslet? && c in s.calls && s.calls[c] == Call(op, Handle(id, 1), Handle(id, 1), pc, false, None)
    && TxOf(s, c, 0).Some? && TxOf(s, c, 0).value.phase == phase && TxOf(s, c, 0).value.id == id
    && TxOf(s, c, 0).value.work == Create(op.initialize) && s.db == base.db
  }

  lemma Creates(s: State, c: CallId, op: Op, id: string, token: string)
    requires Inv(s) && c !in s.calls && op.CreateIslet? && id !in s.ids && token != ""
    ensures var e := Invoke(c, op, Handle(id, 1));
            && Step(s, e).Some? && Inv(Step(s, e).value) && Step(Step(s, e).value, MakeIslet(c, id, token)).Some?
            && var s2 := Step(Step(s, e).value, MakeIslet(c, id, token)).value;
               Inv(s2) && IsCreating(s, s2, c, op, id, InTx(0), Running)
  {
    var e := Invoke(c, op, Handle(id, 1));
    hide Inv, Step, IsCreating;
    StepKeeps(s, e) by { CanInvoke(s, c, op, Handle(id, 1)); }
    var s1 := Step(s, e).value;
    InvokeFacts(s, c, op, Handle(id, 1));
    CanMake(s1, c, id, token);
    StepKeeps(s1, MakeIslet(c, id, token));
    MakeFacts(s1, c, op, id, token);
    SameCreating(s1, s, Step(s1, MakeIslet(c, id, token)).value, c, op, id);
  }

  lemma InvokeFacts(s: State, c: CallId, op: Op, h: Handle)
    requires c !in s.calls
    ensures Step(s, Invoke(c, op, h)).Some?
    ensures var s1 := Step(s, Invoke(c, op, h)).value;
            && s1.ids == s.ids && s1.db == s.db && c in s1.calls && s1.calls[c] == Call(op, h, h, Start, false, None)
  {
  }

  lemma MakeFacts(s: State, c: CallId, op: Op, id: string, token: string)
    requires Step(s, MakeIslet(c, id, token)).Some? && op.CreateIslet?
    requires c in s.calls && s.calls[c] == Call(op, Handle(id, 1), Handle(id, 1), Start, false, None)
    ensures IsCreating(s, Step(s, MakeIslet(c, id, token)).value, c, op, id, InTx(0), Running)
  {
    assert Step(s, MakeIslet(c, id, token)) == DoMake(s, c, id, token);
    hide Step;
  }

  lemma SameCreating(base: State, base': State, s: State, c: CallId, op: Op, id: string)
    requires base.db == base'.db && IsCreating(base, s, c, op, id, InTx(0), Running)
    ensures IsCreating(base', s, c, op, id, InTx(0), Running)
  {
  }

  lemma CreatingSends(base: State, s: State, c: CallId, op: Op, id: string)
    requires Inv(s) && IsCreating(base, s, c, op, id, InTx(0), Running)
    ensures Step(s, Send(c)).Some? && Inv(Step(s, Send(c)).value)
    ensures IsCreating(base, Step(s, Send(c)).value, c, op, id, Waiting(0), CommitSent)
  {
    hide Inv;
    assert Step(s, Send(c)) == DoSend(s, c);
    hide Step;
    StepKeeps(s, Send(c));
  }

  /** From every reachable state: `Create` succeeds under a new identifier, and `CreateWithInitialization`
      gets as far as its initialisation. */
  lemma CreationCommits(s: State, c: CallId, op: Op, id: string, token: string) returns (es: seq<Event>)
    requires Inv(s) && c !in s.calls && op.CreateIslet? && id !in s.ids && token != ""
    ensures Steps(s, es).Some? && OnlyBy(es, c) && Inv(Steps(s, es).value)
    ensures var s' := Steps(s, es).value;
            && c in s'.calls && s'.calls[c].op == op && s'.calls[c].next == Handle(id, 1) && id !in s'.locks
            && s'.calls[c].pc == (if op.initialize then Initialize else Done(Success))
            && IsNew(Published(s), Published(s'), id, op.initialize)
  {
    var t := TxId(c, 0);
    var e := Invoke(c, op, Handle(id, 1));
    hide Inv, Step, Steps, OnlyBy, IsCreating, IsNew, Published, AnswersTo, TxOf, OperationOf, Perform, Client;
    Creates(s, c, op, id, token);
    var s1 := Step(s, e).value;
    var s2 := Step(s1, MakeIslet(c, id, token)).value;
    CreatingSends(s, s2, c, op, id);
    var s3 := Step(s2, Send(c)).value;
    CreatingFacts(s, s3, c, op, id, Waiting(0), CommitSent);
    ServerCommits(s3, c, 0);
    var s4 := Step(s3, ServerCommit(t)).value;
    SamePublished(s, s3);
    PerformedCreates(Published(s), Published(s4), t, s3.txs[t]);
    ReplyDecides(s4, c);
    StepKeeps(s4, Reply(c, false));
    var s5 := Step(s4, Reply(c, false)).value;
    SamePublished(s4, s5);
    CreationAnswered(s4, s5, c, op, id);
    NothingToDo(s5, c);
    ClientsOf(c);
    CreationClients(c, op, id, token);
    es := Before(s4, Reply(c, false), [], c);
    es := Before(s3, ServerCommit(t), es, c);
    es := Before(s2, Send(c), es, c);
    es := Before(s1, MakeIslet(c, id, token), es, c);
    es := Before(s, e, es, c);
  }

  lemma CreationClients(c: CallId, op: Op, id: string, token: string)
    ensures Client(Invoke(c, op, Handle(id, 1))) == Some(c) && Client(MakeIslet(c, id, token)) == Some(c)
  {
  }

  lemma CreatingFacts(base: State, s: State, c: CallId, op: Op, id: string, pc: Pc, phase: Phase)
    requires IsCreating(base, s, c, op, id, pc, phase)
    ensures c in s.calls && s.calls[c] == Call(op, Handle(id, 1), Handle(id, 1), pc, false, None) && s.db == base.db
    ensures TxOf(s, c, 0).Some? && TxId(c, 0) in s.txs && TxOf(s, c, 0).value == s.txs[TxId(c, 0)]
    ensures s.txs[TxId(c, 0)].phase == phase && s.txs[TxId(c, 0)].id == id
            && s.txs[TxId(c, 0)].work == Create(op.initialize)
  {
  }

  lemma CreationAnswered(s4: State, s5: State, c: CallId, op: Op, id: string)
    requires op.CreateIslet? && c in s4.calls && c in s5.calls
    requires s4.calls[c] == Call(op, Handle(id, 1), Handle(id, 1), Waiting(0), false, None)
    requires TxOf(s4, c, 0).Some? && TxOf(s4, c, 0).value.phase == Committed && TxOf(s4, c, 0).value.work.Create?
    requires AnswersTo(s4.calls[c], TxOf(s4, c, 0).value, s5.calls[c])
    ensures s5.calls[c].op == op && s5.calls[c].next == Handle(id, 1)
    ensures s5.calls[c].pc == if op.initialize then Initialize else Done(Success)
  {
  }

  /** `CreateWithInitialization` under a new identifier, from every reachable state: undisturbed it
      succeeds, with exactly the statements of the initialisation in the new islet. */
  lemma CreateSucceeds(s: State, c: CallId, id: string, token: string, sql: seq<string>) returns (es: seq<Event>)
    requires Inv(s) && c !in s.calls && id !in s.ids && token != ""
    ensures Steps(s, es).Some? && OnlyBy(es, c)
    ensures var s' := Steps(s, es).value;
            && c in s'.calls && s'.calls[c].op == CreateIslet(true, sql) && s'.calls[c].pc == Done(Success)
            && id !in Published(s) && IsInitialised(Published(s), Published(s'), id, 1, c, sql)
  {
    hide Inv, Step, Steps, OnlyBy, HasRun, Published, IsPrepared, IsInitialised, IsNew;
    es := CreationCommits(s, c, CreateIslet(true, sql), id, token);
    var s1 := Steps(s, es).value;
    NewIsPrepared(s, s1, c, id);
    var rest := InitialisationSucceeds(s1, c);
    NewIsInitialised(Published(s), Published(s1), Published(Steps(s1, rest).value), c, id, sql);
    Joined(s, es, rest, c);
    es := es + rest;
  }

  lemma NewIsPrepared(s: State, s1: State, c: CallId, id: string)
    requires c in s1.calls && s1.calls[c].pc == Initialize && s1.calls[c].op.CreateIslet? && s1.calls[c].op.initialize
    requires s1.calls[c].next == Handle(id, 1) && id !in s1.locks && IsNew(Published(s), Published(s1), id, true)
    ensures IsPrepared(s1, c)
  {
  }

  lemma NewIsInitialised(r: Registry, r1: Registry, r': Registry, c: CallId, id: string, sql: seq<string>)
    requires IsNew(r, r1, id, true) && HasRun(r1, r', Handle(id, 1), c, sql)
    ensures id !in r && IsInitialised(r, r', id, 1, c, sql)
  {
  }
}
