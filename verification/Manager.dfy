/**
 The methods of a Manager, each as the source writes it: ordered steps against one shared
 database, with every other call and the server free to take any steps in between. They
 show that the calls are made of the protocol's steps and that none of them gets stuck, and
 they say what a caller may rely on when a call returns.
 */
module Manager {
  import opened Wrappers
  import opened Gateway
  import opened Protocol
  import opened ProtocolInvariant
  import opened ProtocolSteps
  import opened ProtocolOutcomes
  import opened ProtocolOthers
  import opened ProtocolHandles
  import opened ProtocolReplies
  import opened SizeCheck
  import opened Policy
  import opened Execution
  import opened Vetting

  /** What every reachable state satisfies. */
  ghost predicate Sound(s: State) {
    Inv(s) && HandlesOk(s)
  }

  /** Some run, in which every statement is checked first, leads from `s` to `s'`. */
  ghost predicate Reached(env: Env, s: State, s': State) {
    exists es :: Runs(env, s, es) == Some(s')
  }

  lemma {:induction false} RunsAppend(env: Env, s: State, es: seq<Event>, fs: seq<Event>)
    requires Runs(env, s, es).Some?
    ensures Runs(env, s, es + fs) == Runs(env, Runs(env, s, es).value, fs)
    decreases |es|
  {
    hide Step, Admitted;
    if es == [] {
      assert es + fs == fs;
    } else {
      assert (es + fs)[0] == es[0] && (es + fs)[1..] == es[1..] + fs;
      RunsAppend(env, Step(s, es[0]).value, es[1..], fs);
    }
  }

  lemma ReachedTransitive(env: Env, s: State, s1: State, s2: State)
    requires Reached(env, s, s1) && Reached(env, s1, s2)
    ensures Reached(env, s, s2)
  {
    var es :| Runs(env, s, es) == Some(s1);
    var fs :| Runs(env, s1, fs) == Some(s2);
    RunsAppend(env, s, es, fs);
  }

  lemma ReachedFurther(env: Env, s: State, s': State)
    requires Reached(env, s, s')
    ensures forall b :: Reached(env, b, s) ==> Reached(env, b, s')
  {
    forall b | Reached(env, b, s) ensures Reached(env, b, s') {
      ReachedTransitive(env, b, s, s');
    }
  }

  lemma ReachedStep(env: Env, s: State, e: Event)
    requires Step(s, e).Some? && Admitted(env, s, e)
    ensures Reached(env, s, Step(s, e).value)
  {
    hide Step, Admitted;
    assert [e][1..] == [];
    assert Runs(env, s, [e]) == Step(s, e);
  }

  lemma ReachedNothing(env: Env, s: State)
    ensures Reached(env, s, s)
  {
    assert Runs(env, s, []) == Some(s);
  }

  // ------------------------------------------------------------ where a call stands

  /** The call is inside its transaction of the given stage, and the work it has done there
      is `work`; the server may have ended the transaction behind its back. */
  predicate Inside(s: State, c: CallId, stage: nat, work: Work) {
    && c in s.calls && s.calls[c].pc == InTx(stage)
    && TxOf(s, c, stage).Some? && TxOf(s, c, stage).value.work == work
    && (TxOf(s, c, stage).value.phase == Running || TxOf(s, c, stage).value.phase == Aborted)
  }

  predicate Alive(s: State, c: CallId, stage: nat) {
    TxOf(s, c, stage).Some? && TxOf(s, c, stage).value.phase == Running
  }

  /** `execute` has returned: a batch is over, an initialisation has committed or owes its late
      update. */
  predicate Over(op: Op, pc: Pc) {
    if op.Batch? then pc.Done? && (pc.outcome.Success? || pc.outcome.Refused? || pc.outcome.Unknown?)
    else pc == Reopening || pc == Late
  }

  /** Nothing of a call changes but where it is. */
  predicate SameCall(call: Call, call': Call) {
    call'.op == call.op && call'.handle == call.handle && call'.next == call.next
  }

  lemma CanEnter(s: State, c: CallId)
    requires Inv(s) && c in s.calls && s.calls[c].pc.Looked?
    ensures Step(s, EnterGateway(c)).Some?
    ensures var s' := Step(s, EnterGateway(c)).value;
            var call := s.calls[c];
            && c in s'.calls && SameCall(call, s'.calls[c])
            && ((if call.op.Batch? then s'.calls[c].pc.Done? && s'.calls[c].pc.outcome.Refused?
                 else s'.calls[c].pc == Late)
                || Inside(s', c, RunStage(call.op), Run(call.pc.generation, call.pc.token, call.op.sql, 0, false)))
  {
    assert CallOk(s.calls[c], TxOf(s, c, 0), TxOf(s, c, 1));
    hide Inv, Enter;
  }

  lemma CanExec(s: State, c: CallId, stage: nat, work: Work)
    requires Inv(s) && Inside(s, c, stage, work) && Alive(s, c, stage)
    requires work.Run? && !work.finished && work.next < |work.sql|
    ensures Step(s, Exec(c)).Some?
    ensures var s' := Step(s, Exec(c)).value;
            Inside(s', c, stage, work.(next := work.next + 1)) && s'.calls == s.calls
  {
    var t := TxId(c, stage);
    assert TxOk(s, t, s.txs[t]);
    hide Inv;
  }

  lemma CanFinish(s: State, c: CallId, work: Work)
    requires Inv(s) && Inside(s, c, 1, work) && Alive(s, c, 1)
    requires work.Run? && !work.finished && work.next == |work.sql|
    ensures Step(s, FinishGateway(c)).Some?
    ensures var s' := Step(s, FinishGateway(c)).value;
            Inside(s', c, 1, work.(finished := true)) && s'.calls == s.calls
  {
    var t := TxId(c, 1);
    assert TxOk(s, t, s.txs[t]);
    hide Inv;
    FinishWork(c, s.txs[t], At(s, s.txs[t].id));
  }

  /** What a step of the lifecycle makes of the work done so far. */
  function StageAfter(e: Event, action: Action): Stage {
    match e
    case CheckDependencies(_, clear) => if clear then Checked else Marked
    case DropSchema(_) => Dropped
    case Rebuild(_) => Cleaned
    case Revert(_) => Marked
    case _ => Updated
  }

  predicate Initialises(action: Action) {
    action.Reset? && action.initialize
  }

  predicate StageAllows(e: Event, stage: Stage) {
    match e
    case CheckDependencies(_, _) => stage == Held
    case DropSchema(_) => stage == Checked
    case Rebuild(_) => stage == Dropped
    case Revert(_) => stage == Checked || stage == Dropped
    case _ => false
  }

  lemma CanManage(s: State, c: CallId, work: Work, e: Event)
    requires Inside(s, c, 0, work) && Alive(s, c, 0) && work.Manage?
    requires Client(e) == Some(c) && StageAllows(e, work.stage)
    ensures Step(s, e).Some?
    ensures Inside(Step(s, e).value, c, 0, work.(stage := StageAfter(e, work.action)))
            && Step(s, e).value.calls == s.calls
  {
  }

  /** The registry statement after a cleanup that worked; only a bigint that is used up
      stops it. */
  lemma StepUpdates(s: State, c: CallId, token: string)
    ensures Step(s, UpdateRow(c, token)) == DoUpdate(s, c, token)
  {
  }

  lemma SeesItsRow(s: State, c: CallId, work: Work)
    requires Inv(s) && Inside(s, c, 0, work) && Alive(s, c, 0)
    requires work.Manage? && work.action.Reset? && work.stage == Cleaned
    ensures var row := s.txs[TxId(c, 0)].view.row; row.Some? && row.value.generation == work.generation
  {
    assert TxOk(s, TxId(c, 0), s.txs[TxId(c, 0)]);
    hide Inv;
  }

  lemma CanUpdate(s: State, c: CallId, work: Work, token: string)
    requires Inv(s) && Inside(s, c, 0, work) && Alive(s, c, 0) && work.Manage? && work.stage == Cleaned && token != ""
    requires work.action.Reset? ==> work.generation < MAX_BIGINT
    ensures Step(s, UpdateRow(c, token)).Some?
    ensures var s' := Step(s, UpdateRow(c, token)).value;
            Inside(s', c, 0, work.(stage := Updated)) && s'.calls == s.calls
  {
    hide Inv, FreshRow, Step;
    if work.action.Reset? {
      SeesItsRow(s, c, work);
    }
    StepUpdates(s, c, token);
  }

  /** How a commit turns out for its call: the reply is lost, or it tells what the server has done. */
  predicate Replied(call: Call, call': Call, stage: nat, tx: Tx) {
    || (SameCall(call, call') && call'.pc == if stage == 0 then Done(Unknown) else Late)
    || ((tx.phase == Committed || tx.phase == Aborted) && AnswersTo(call.(pc := Waiting(stage)), tx, call'))
  }

  /** An answer leaves a call what it is. */
  lemma AnswersForSame(call: Call, tx: Tx)
    requires call.pc.Waiting?
    ensures forall call' :: AnswersTo(call, tx, call') ==> call'.op == call.op && call'.handle == call.handle
  {
  }

  lemma CanSend(s: State, c: CallId, stage: nat, work: Work)
    requires Inside(s, c, stage, work) && Complete(TxId(c, stage), work)
    ensures Step(s, Send(c)).Some?
    ensures var s' := Step(s, Send(c)).value;
            && c in s'.calls && s'.calls[c] == s.calls[c].(pc := Waiting(stage))
            && TxOf(s', c, stage).Some? && TxOf(s', c, stage).value.work == work
            && TxOf(s', c, stage).value.phase != Running
  {
    hide Complete;
  }

  // -------------------------------------------------------------------------- methods

  lemma RunIsComplete(t: TxId, work: Work)
    requires work.Run? && work.next == |work.sql| && (t.stage == 1 ==> work.finished)
    ensures Complete(t, work)
  {
  }

  /** Every call that is over keeps what its outcome promises. */
  lemma KeepsPromise(s: State, c: CallId)
    requires Inv(s) && c in s.calls && s.calls[c].pc.Done?
    ensures OutcomeOk(s.calls[c].op, s.calls[c].pc.outcome, TxOf(s, c, 0), TxOf(s, c, 1))
  {
    assert CallOk(s.calls[c], TxOf(s, c, 0), TxOf(s, c, 1));
  }

  /** What a call that is over hands back. */
  lemma HandsOver(s: State, c: CallId)
    requires Sound(s) && c in s.calls && s.calls[c].pc.Done?
    ensures HandleOk(s.calls[c])
    ensures s.calls[c].pc.outcome.Unconfirmed? ==>
              Initializes(s.calls[c].op) && s.calls[c].back == Some(Returned(s.calls[c].next, Active))
                && s.calls[c].next == MadeBy(s.calls[c])
    ensures s.calls[c].pc.outcome.Success? && MakesGeneration(s.calls[c].op) && !Initializes(s.calls[c].op) ==>
              s.calls[c].back == Some(Returned(s.calls[c].next, Active)) && s.calls[c].next == MadeBy(s.calls[c])
  {
    assert CallOk(s.calls[c], TxOf(s, c, 0), TxOf(s, c, 1));
    assert HandleOk(s.calls[c]);
    hide Inv, HandlesOk;
  }

  lemma InitializeInitializes(s: State, c: CallId)
    requires Inv(s) && c in s.calls && s.calls[c].pc == Initialize
    ensures Initializes(s.calls[c].op)
  {
    assert CallOk(s.calls[c], TxOf(s, c, 0), TxOf(s, c, 1));
  }

  lemma InitializedRan(s: State, c: CallId)
    requires Inv(s) && c in s.calls && Initializes(s.calls[c].op)
    ensures s.calls[c].pc.Done? && (s.calls[c].pc.outcome.Success? || s.calls[c].pc.outcome.Unconfirmed?) ==>
              DidRun(s, c)
  {
    assert CallOk(s.calls[c], TxOf(s, c, 0), TxOf(s, c, 1));
    if TxId(c, 1) in s.txs {
      assert TxOk(s, TxId(c, 1), s.txs[TxId(c, 1)]);
    }
    hide Inv, WorkOk, Complete;
  }

  lemma CanLock(s: State, c: CallId)
    requires Inv(s) && c in s.calls && s.calls[c].pc == Start && s.calls[c].op.Lifecycle?
    ensures Step(s, LockRow(c)).Some?
    ensures var s' := Step(s, LockRow(c)).value;
            && c in s'.calls && SameCall(s.calls[c], s'.calls[c])
            && (s'.calls[c].pc.Done?
                || Inside(s', c, 0, Work.Manage(s.calls[c].op.action, s.calls[c].handle.generation, Held)))
  {
    assert TxOf(s, c, 0).None? by {
      assert CallOk(s.calls[c], TxOf(s, c, 0), TxOf(s, c, 1));
    }
    hide Inv, CallOk;
    assert Step(s, LockRow(c)) == DoLock(s, c);
    hide Step;
  }

  lemma CanLookup(s: State, c: CallId)
    requires c in s.calls && (s.calls[c].pc == Initialize || (s.calls[c].pc == Start && s.calls[c].op.Batch?))
    ensures Step(s, Lookup(c)).Some?
    ensures var s' := Step(s, Lookup(c)).value;
            && c in s'.calls && SameCall(s.calls[c], s'.calls[c])
            && (s'.calls[c].pc.Looked?
                || (if s.calls[c].pc == Initialize then s'.calls[c].pc == Late
                    else s'.calls[c].pc.Done? && s'.calls[c].pc.outcome.Refused?))
  {
  }

  lemma CanPost(s: State, c: CallId)
    requires c in s.calls && s.calls[c].pc == Late
    ensures Step(s, PostLate(c)).Some?
    ensures var s' := Step(s, PostLate(c)).value;
            c in s'.calls && SameCall(s.calls[c], s'.calls[c]) && s'.calls[c].pc == Late
  {
  }

  lemma CanReopen(s: State, c: CallId)
    requires c in s.calls && (s.calls[c].pc == Late || s.calls[c].pc == Reopening)
    ensures Step(s, Reopen(c)).Some?
    ensures var s' := Step(s, Reopen(c)).value;
            && c in s'.calls && SameCall(s.calls[c], s'.calls[c])
            && if s.calls[c].pc == Late then s'.calls[c].pc == Late
               else s'.calls[c].pc == Done(Success) || s'.calls[c].pc == Done(Unconfirmed(NotFound))
  {
  }

  /** A statement that has come through its checks may be executed. */
  lemma CheckedIsAdmitted(env: Env, s: State, c: CallId, stage: nat, work: Work, before: seq<Write>)
    requires Inside(s, c, stage, work) && Alive(s, c, stage) && work.Run? && work.next < |work.sql|
    requires TxOf(s, c, stage).value.view.schema == Some(before)
    requires StatementOk(Checker(RulesOf(env, TxOf(s, c, stage).value.id), env.order(c, work.next)),
                         work.sql[work.next],
                         env.reserved, Ok(env.catalog(before)))
    ensures Admitted(env, s, Exec(c))
  {
    hide Check, LocalFunctions;
  }

  /** What a batch hands back: complete results of the statements before the one that failed, and
      the partial one of that statement if it was sent; and whom its error blames. */
  predicate HandsBack(sql: seq<string>, results: seq<QueryResult>, err: Option<BatchError>, failed: nat) {
    && failed <= |results| <= |sql|
    && (forall j | 0 <= j < failed :: results[j].complete)
    && match err
       case None => failed == |sql|
       case Some(e) =>
         && failed < |sql| && |results| <= failed + 1
         && (|results| == failed + 1 ==> !results[failed].complete)
         && (e.statement.Some? ==> e.statement == Some(failed))
         && (e.kind.PolicyViolation? ==> |results| == failed && e.statement == Some(failed))
  }

  /** A call whose statements have been committed, or may have been. */
  predicate MayHaveCommitted(pc: Pc) {
    pc == Reopening || (pc.Done? && (pc.outcome.Success? || pc.outcome.Unknown?))
  }

  /** The transaction of a batch has an islet to work in. */
  lemma ExecIsReady(s: State, c: CallId, stage: nat, work: Work)
    requires Inv(s) && Inside(s, c, stage, work)
    ensures TxId(c, stage) in s.txs
    ensures Alive(s, c, stage) && work.Run? ==> s.txs[TxId(c, stage)].view.schema.Some?
  {
    assert TxOk(s, TxId(c, stage), s.txs[TxId(c, stage)]);
    hide Inv;
  }

  lemma FailureShape(c: Checker, sql: string, reserved: set<string>, names: Result<seq<string>, Fault>, reply: Reply,
                     result: Option<QueryResult>, err: BatchError, i: nat)
    requires StatementFails(c, sql, reserved, names, reply, result, err, i)
    ensures result.Some? ==> !result.value.complete
    ensures err.statement.Some? ==> err.statement == Some(i)
    ensures err.kind.PolicyViolation? ==> result.None? && err.statement == Some(i)
  {
    hide Check, StatementOk;
  }

  lemma CompletedShape(c: Checker, sql: string, reserved: set<string>, names: Result<seq<string>, Fault>, reply: Reply,
                       result: QueryResult)
    requires StatementOk(c, sql, reserved, names) && Completed(reply, result)
    ensures result.complete && |result.rows| == ReplyRows(reply) && names.Ok? && reply.Stream?
  {
    hide Check;
  }

  /** The results of all statements. */
  predicate IsWhole(sql: seq<string>, results: seq<QueryResult>) {
    |results| == |sql| && forall r <- results :: r.complete
  }

  lemma CanInvoke(s: State, c: CallId, op: Op, h: Handle)
    requires c !in s.calls
    ensures Step(s, Invoke(c, op, h)).Some?
    ensures var s' := Step(s, Invoke(c, op, h)).value;
            c in s'.calls && s'.calls[c] == Call(op, h, h, Start, false, None)
  {
  }

  lemma CanMake(s: State, c: CallId, id: string, token: string)
    requires Inv(s) && c in s.calls && s.calls[c].pc == Start && s.calls[c].op.CreateIslet?
    requires id !in s.ids && token != ""
    ensures Step(s, MakeIslet(c, id, token)).Some?
    ensures var s' := Step(s, MakeIslet(c, id, token)).value;
            && c in s'.calls && s'.calls[c].op == s.calls[c].op && s'.calls[c].handle == s.calls[c].handle
            && Inside(s', c, 0, Work.Create(s.calls[c].op.initialize))
  {
    assert CallOk(s.calls[c], TxOf(s, c, 0), TxOf(s, c, 1));
    hide Inv;
  }

  class Database {
    const env: Env
    var s: State

    constructor (env: Env)
      ensures this.env == env && s == INITIAL && Sound(s)
    {
      this.env := env;
      s := INITIAL;
    }

    /** One step. */
    method Take(e: Event)
      requires Sound(s) && Step(s, e).Some? && Admitted(env, s, e)
      modifies this
      ensures Step(old(s), e) == Some(s) && Sound(s)
      ensures forall b :: Reached(env, b, old(s)) ==> Reached(env, b, s)
    {
      hide Inv, HandlesOk, Step, Admitted;
      StepKeeps(s, e);
      HandlesStep(s, e);
      ReachedFurther(env, s, Step(s, e).value) by { ReachedStep(env, s, e); }
      s := Step(s, e).value;
    }

    /** Any number of steps of the server and of all other calls. */
    method Others(c: CallId)
      requires Sound(s) && c in s.calls
      modifies this
      ensures Sound(s) && c in s.calls && s.calls[c] == old(s).calls[c]
      ensures forall b :: Reached(env, b, old(s)) ==> Reached(env, b, s)
      ensures forall stage: nat, work: Work :: stage <= 1 && Inside(old(s), c, stage, work) ==>
                Inside(s, c, stage, work)
      ensures forall stage: nat :: stage <= 1 ==> TxElsewhere(TxOf(old(s), c, stage), TxOf(s, c, stage))
    {
      hide Inv, HandlesOk, Step;
      var rounds: nat := *;
      while rounds > 0
        invariant Sound(s) && Elsewhere(old(s), s, c)
        invariant forall b :: Reached(env, b, old(s)) ==> Reached(env, b, s)
      {
        var e: Event := *;
        if Client(e) != Some(c) && Step(s, e).Some? && Admitted(env, s, e) {
          OthersStep(s, e, c);
          Take(e);
        }
        rounds := rounds - 1;
      }
    }

    /** Where a method leaves its call: the same call, further on. */
    ghost predicate Left(before: State, c: CallId)
      reads this
    {
      Sound(s) && (forall b :: Reached(env, b, before) ==> Reached(env, b, s)) && c in before.calls && c in s.calls
      && s.calls[c].op == before.calls[c].op && s.calls[c].handle == before.calls[c].handle
    }

    /** An error outside a commit. */
    method Abandon(c: CallId, kind: ErrorKind)
      requires Sound(s) && c in s.calls && !s.calls[c].pc.Waiting? && !s.calls[c].pc.Done?
      modifies this
      ensures Left(old(s), c) && SameCall(old(s).calls[c], s.calls[c])
      ensures s.calls[c].pc == Failing(old(s).calls[c], kind)
    {
      hide Inv, HandlesOk;
      Take(GiveUp(c, kind));
    }

    /** `commit`: COMMIT, and whatever becomes of the reply. */
    method Commit(c: CallId, ghost stage: nat, ghost work: Work)
      requires Sound(s) && Inside(s, c, stage, work) && stage <= 1 && Complete(TxId(c, stage), work)
      modifies this
      ensures Left(old(s), c)
      ensures TxOf(s, c, stage).Some? && TxOf(s, c, stage).value.work == work
      ensures Replied(old(s).calls[c], s.calls[c], stage, TxOf(s, c, stage).value)
    {
      hide Inv, HandlesOk, Complete, Step, AnswersTo;
      CanSend(s, c, stage, work);
      Take(Send(c));
      Others(c);
      var lost: bool := *;
      // A reply that does not come before the deadline is lost.
      if lost || s.txs[TxId(c, s.calls[c].pc.stage)].phase == CommitSent {
        LostReplyDecides(s, c);
        Take(Reply(c, true));
      } else {
        ReplyDecides(s, c);
        AnswersForSame(s.calls[c], TxOf(s, c, stage).value);
        Take(Reply(c, false));
      }
    }

    /** The statements of a batch, in order, until one of them is refused: each is checked against
        the names its transaction sees, and sent if it passes; what the server sends is arbitrary. */
    method RunStatements(c: CallId, sql: seq<string>, limits: Limits, ghost work: Work)
      returns (results: seq<QueryResult>, err: Option<BatchError>, ghost failed: nat)
      requires Sound(s) && c in s.calls && Inside(s, c, RunStage(s.calls[c].op), work) && limits.Normalised()
      requires work.Run? && work.sql == sql && work.next == 0 && !work.finished
      modifies this
      ensures Left(old(s), c) && SameCall(old(s).calls[c], s.calls[c])
      ensures HandsBack(sql, results, err, failed) && HandedBack(results) <= limits.rows as int
      ensures err.None? ==> Inside(s, c, RunStage(s.calls[c].op), work.(next := |sql|))
      ensures err.Some? ==> s.calls[c].pc == if s.calls[c].op.Batch? then Done(Refused(Query)) else Late
    {
      hide Inv, HandlesOk, Step, Admitted, StatementOk, StatementFails, Completed, HandedBack, ReplyRows, ReplyBytes;
      var stage := RunStage(s.calls[c].op);
      var budget := new Budget(limits.rows as int, limits.resultBytes as int);
      results, err, failed := [], None, 0;
      SumsStart([]);
      for i := 0 to |sql|
        invariant Left(old(s), c) && SameCall(old(s).calls[c], s.calls[c])
        invariant Inside(s, c, stage, work.(next := i))
        invariant err.None? && |results| == i && (forall j | 0 <= j < i :: results[j].complete)
        invariant fresh(budget) && budget.rowsLeft == limits.rows as int - HandedBack(results) >= 0
      {
        Others(c);
        ExecIsReady(s, c, stage, work.(next := i));
        var tx := s.txs[TxId(c, stage)];
        var before := if tx.view.schema.Some? then tx.view.schema.value else [];
        // What the server answers to the catalog query and to the statement; an error each if it
        // has ended the transaction.
        var names: Result<seq<string>, Fault> := Ok(env.catalog(before));
        var reply: Reply := *;
        var broken: bool := *;
        if broken || tx.phase != Running {
          var fault: Fault := *;
          var early: bool := *;
          if early {
            names := Err(fault);
          }
          reply := Reply.Failed(fault);
        }
        var checker := Checker(RulesOf(env, tx.id), env.order(c, i));
        var result: Option<QueryResult>;
        result, err := RunStatement(checker, sql[i], env.reserved, names, reply, i, budget);
        if result.Some? {
          HandedBackNext(results, result.value);
          results := results + [result.value];
        }
        if err.Some? {
          failed := i;
          FailureShape(checker, sql[i], env.reserved, names, reply, result, err.value, i);
          Abandon(c, Query);
          return;
        }
        CompletedShape(checker, sql[i], env.reserved, names, reply, result.value);
        CheckedIsAdmitted(env, s, c, stage, work.(next := i), before);
        CanExec(s, c, stage, work.(next := i));
        Take(Exec(c));
      }
      failed := |sql|;
    }

    /** `execute`: connect, enter, the statements, finish for an initialisation, commit. A batch
        that has been committed, or may have been, comes with all its results; an error at a
        statement means that the transaction is given up. */
    method Execute(c: CallId, limits: Limits)
      returns (results: seq<QueryResult>, err: Option<BatchError>, ghost failed: nat)
      requires Sound(s) && c in s.calls && s.calls[c].pc.Looked? && limits.Normalised()
      modifies this
      ensures Left(old(s), c) && Over(s.calls[c].op, s.calls[c].pc)
      ensures s.calls[c].next == old(s).calls[c].next && HandedBack(results) <= limits.rows as int
      ensures err.Some? ==> HandsBack(s.calls[c].op.sql, results, err, failed)
      ensures err.Some? ==> s.calls[c].pc == if s.calls[c].op.Batch? then Done(Refused(Query)) else Late
      ensures err.None? ==> results == [] || IsWhole(s.calls[c].op.sql, results)
      ensures MayHaveCommitted(s.calls[c].pc) ==> IsWhole(s.calls[c].op.sql, results)
    {
      hide Inv, HandlesOk, Complete, Step, HandedBack;
      SumsStart([]);
      results, err, failed := [], None, 0;
      var sql := s.calls[c].op.sql;
      var stage := RunStage(s.calls[c].op);
      Others(c);
      var connected: bool := *;
      if !connected {
        Abandon(c, ErrorKind.Lifecycle);
        return;
      }
      ghost var work := Run(s.calls[c].pc.generation, s.calls[c].pc.token, sql, 0, false);
      CanEnter(s, c);
      Take(EnterGateway(c));
      if !s.calls[c].pc.InTx? {
        return;
      }
      results, err, failed := RunStatements(c, sql, limits, work);
      if err.None? {
        Conclude(c, stage, work.(next := |sql|));
      }
    }

    /** The end of `execute`: finish for an initialisation, and the commit. */
    method Conclude(c: CallId, stage: nat, ghost work: Work)
      requires Sound(s) && Inside(s, c, stage, work) && stage == RunStage(s.calls[c].op)
      requires work.Run? && work.next == |work.sql| && !work.finished
      modifies this
      ensures Left(old(s), c) && Over(s.calls[c].op, s.calls[c].pc) && s.calls[c].next == old(s).calls[c].next
    {
      hide Inv, HandlesOk, Complete, Step;
      Others(c);
      ghost var done := work;
      if stage == 1 {
        var answered: bool := *;
        if !answered || s.txs[TxId(c, stage)].phase != Running {
          Abandon(c, Query);
          return;
        }
        CanFinish(s, c, work);
        Take(FinishGateway(c));
        done := work.(finished := true);
      }
      RunIsComplete(TxId(c, stage), done);
      Commit(c, stage, done);
    }

    /** `Batch`: the size check, lookup, then `execute`. No outcome means that the batch is too
        large, and then nothing has been touched. Success, and an outcome that is unknown, come
        with all results; an error at a statement means that nothing has been committed. */
    method Batch(c: CallId, h: Handle, sql: seq<string>, limits: Limits)
      returns (out: Option<Outcome>, results: seq<QueryResult>, err: Option<BatchError>, ghost failed: nat)
      requires Sound(s) && c !in s.calls && limits.Normalised() && Addressable(sql)
      modifies this
      ensures out.Some? <==> Fits(sql, limits)
      ensures out.None? ==> s == old(s) && results == []
      ensures Sound(s) && Reached(env, old(s), s)
      ensures out.Some? ==> c in s.calls && s.calls[c].op == Op.Batch(sql) && s.calls[c].handle == h
                            && s.calls[c].pc == Done(out.value)
      ensures out == Some(Success) ==> DidRun(s, c)
      ensures out.Some? && out.value.Refused? ==> !DidRun(s, c)
      ensures out.Some? ==> out.value.Success? || out.value.Refused? || out.value.Unknown?
      ensures out == Some(Success) || out == Some(Unknown) ==> err.None? && IsWhole(sql, results)
      ensures err.Some? ==> out == Some(Refused(Query)) && HandsBack(sql, results, err, failed)
      ensures HandedBack(results) <= limits.rows as int
    {
      hide Inv, HandlesOk, DidRun, Step, HandedBack;
      SumsStart([]);
      out, results, err, failed := None, [], None, 0;
      ReachedNothing(env, s);
      var fits := CheckSize(sql, limits);
      if !fits {
        return;
      }
      CanInvoke(s, c, Op.Batch(sql), h);
      Take(Invoke(c, Op.Batch(sql), h));
      Others(c);
      CanLookup(s, c);
      Take(Lookup(c));
      if s.calls[c].pc.Looked? {
        results, err, failed := Execute(c, limits);
      }
      out := Some(s.calls[c].pc.outcome);
      BatchOutcome(s, c);
    }

    /** `initialize`: look the new generation up, run the batch under its token, and if that goes
        wrong try to record it. At last the row is read once more: that can fail although all has
        been committed, and then the error is not that of the initialisation. */
    method InitializeIslet(c: CallId, limits: Limits)
      requires Sound(s) && c in s.calls && s.calls[c].pc == Initialize && limits.Normalised()
      modifies this
      ensures Left(old(s), c) && s.calls[c].pc.Done?
      ensures s.calls[c].pc.outcome.Success? || s.calls[c].pc.outcome.Unconfirmed?
              || s.calls[c].pc.outcome.InitializationFailed?
      ensures s.calls[c].pc.outcome.Success? || s.calls[c].pc.outcome.Unconfirmed? ==> DidRun(s, c)
    {
      hide Inv, HandlesOk, DidRun, Step, Initializes, HandedBack;
      InitializeInitializes(s, c);
      Others(c);
      CanLookup(s, c);
      Take(Lookup(c));
      if s.calls[c].pc.Looked? {
        var _, _, _ := Execute(c, limits);
      }
      if s.calls[c].pc == Late {
        var connected: bool := *;
        if connected {
          CanPost(s, c);
          Take(PostLate(c));
        }
        // The server applies the update when the row is free, now or after this call has given
        // up waiting for it.
        Others(c);
        var opens: bool := *;
        if opens {
          CanReopen(s, c);
          Take(Reopen(c));
        }
        Abandon(c, Timeout);
      } else {
        Others(c);
        var answered: bool := *;
        if answered {
          CanReopen(s, c);
          Take(Reopen(c));
        } else {
          Abandon(c, Timeout);
        }
        InitializedRan(s, c);
      }
    }

    /** The end of a lifecycle transaction, and the initialisation that may follow it. */
    method CommitLifecycle(c: CallId, limits: Limits, ghost work: Work) returns (out: Outcome)
      requires limits.Normalised() && Sound(s) && Inside(s, c, 0, work) && !work.Run? && Complete(TxId(c, 0), work)
      modifies this
      ensures Left(old(s), c) && s.calls[c].pc == Done(out)
    {
      hide Inv, HandlesOk, Complete;
      Others(c);
      Commit(c, 0, work);
      if s.calls[c].pc == Initialize {
        InitializeIslet(c, limits);
      }
      out := s.calls[c].pc.outcome;
    }

    /** One statement of a lifecycle transaction, or an error instead of it. */
    method LifecycleStep(c: CallId, e: Event, ghost work: Work) returns (ok: bool)
      requires Sound(s) && Inside(s, c, 0, work) && work.Manage?
      requires Client(e) == Some(c) && StageAllows(e, work.stage)
      modifies this
      ensures Left(old(s), c)
      ensures if ok then Inside(s, c, 0, work.(stage := StageAfter(e, work.action))) else s.calls[c].pc.Done?
    {
      hide Inv, HandlesOk;
      Others(c);
      ok := *;
      if !ok || s.txs[TxId(c, 0)].phase != Running {
        Abandon(c, ErrorKind.Lifecycle);
        return false;
      }
      CanManage(s, c, work, e);
      Take(e);
    }

    /** From the savepoint on: drop, rebuild and change the registry, or, if the drop or the
        rebuilding fails, go back and mark the row. */
    method Cleanup(c: CallId, action: Action, generation: nat, token: string, ghost work: Work)
      returns (ok: bool, marked: bool)
      requires Sound(s) && Inside(s, c, 0, work) && work.Manage? && work.stage == Checked && token != ""
      requires work.action == action && work.generation == generation
      modifies this
      ensures Left(old(s), c)
      ensures if ok then Inside(s, c, 0, work.(stage := if marked then Marked else Updated)) else s.calls[c].pc.Done?
    {
      hide Inv, HandlesOk;
      marked := false;
      var dropped: bool := *;
      if !dropped {
        ok := LifecycleStep(c, Revert(c), work);
        return ok, true;
      }
      ok := LifecycleStep(c, DropSchema(c), work);
      if !ok {
        return;
      }
      var rebuilt: bool := *;
      if !rebuilt {
        ok := LifecycleStep(c, Revert(c), work.(stage := Dropped));
        return ok, true;
      }
      ok := LifecycleStep(c, Rebuild(c), work.(stage := Dropped));
      if ok {
        ok := ChangeRow(c, action, generation, token, work.(stage := Cleaned));
      }
    }

    /** `reset` and `Delete`: lock, check the dependencies, clean up, commit. `Reinitialize`
        checks the size of its batch before anything else, returning the handle it was given if
        that is too large, and goes on to initialise. */
    method Manage(c: CallId, given: Returned, action: Action, sql: seq<string>, token: string, limits: Limits)
      returns (out: Option<Outcome>, back: Option<Returned>)
      requires Sound(s) && c !in s.calls && token != "" && limits.Normalised() && Addressable(sql)
      modifies this
      ensures out.None? <==> Initialises(action) && !Fits(sql, limits)
      ensures out.None? ==> s == old(s) && back == Some(given)
      ensures Sound(s) && Reached(env, old(s), s)
      ensures out.Some? ==> c in s.calls
                            && s.calls[c].op == Op.Lifecycle(action, sql) && s.calls[c].handle == given.handle
                            && s.calls[c].pc == Done(out.value) && s.calls[c].back == back && HandleOk(s.calls[c])
      ensures out.Some? ==> OutcomeOk(Op.Lifecycle(action, sql), out.value, TxOf(s, c, 0), TxOf(s, c, 1))
      ensures var made := Handle(given.handle.id, given.handle.generation + 1);
              && (out.Some? && out.value.Unconfirmed? ==> Initialises(action) && back == Some(Returned(made, Active)))
              && (out == Some(Success) && action.Reset? && !action.initialize ==> back == Some(Returned(made, Active)))
    {
      hide Inv, HandlesOk, OutcomeOk, HandleOk, Step;
      var h := given.handle;
      if Initialises(action) {
        var fits := CheckSize(sql, limits);
        if !fits {
          ReachedNothing(env, s);
          return None, Some(given);
        }
      }
      ReachedNothing(env, s);
      CanInvoke(s, c, Op.Lifecycle(action, sql), h);
      Take(Invoke(c, Op.Lifecycle(action, sql), h));
      Others(c);
      CanLock(s, c);
      Take(LockRow(c));
      if !s.calls[c].pc.Done? {
        LockedManage(c, action, h.generation, token, limits, Work.Manage(action, h.generation, Held));
      }
      out, back := Some(s.calls[c].pc.outcome), s.calls[c].back;
      KeepsPromise(s, c);
      HandsOver(s, c);
    }

    method LockedManage(c: CallId, action: Action, generation: nat, token: string, limits: Limits, ghost work: Work)
      requires limits.Normalised() && Sound(s) && Inside(s, c, 0, work) && work.Manage? && work.stage == Held
               && token != ""
      requires work.action == action && work.generation == generation
      modifies this
      ensures Left(old(s), c) && s.calls[c].pc.Done?
    {
      hide Inv, HandlesOk;
      var clear: bool := *;
      var marked := true;
      var ok := LifecycleStep(c, CheckDependencies(c, clear), work);
      if ok && clear {
        ok, marked := Cleanup(c, action, generation, token, work.(stage := Checked));
      }
      if ok {
        var _ := CommitLifecycle(c, limits, work.(stage := if marked then Marked else Updated));
      }
    }

    method ChangeRow(c: CallId, action: Action, generation: nat, token: string, ghost work: Work) returns (ok: bool)
      requires Sound(s) && Inside(s, c, 0, work) && work.Manage? && work.stage == Cleaned && token != ""
      requires work.action == action && work.generation == generation
      modifies this
      ensures Left(old(s), c)
      ensures if ok then Inside(s, c, 0, work.(stage := Updated)) else s.calls[c].pc.Done?
    {
      hide Inv, HandlesOk;
      Others(c);
      ok := *;
      // A generation that is used up makes the UPDATE fail.
      if !ok || (action.Reset? && generation >= MAX_BIGINT) || s.txs[TxId(c, 0)].phase != Running {
        Abandon(c, ErrorKind.Lifecycle);
        return false;
      }
      CanUpdate(s, c, work, token);
      Take(UpdateRow(c, token));
    }

    /** `create`, and for `CreateWithInitialization` the initialisation. */
    method Create(c: CallId, initialize: bool, sql: seq<string>, id: string, token: string, limits: Limits)
      returns (out: Option<Outcome>, back: Option<Returned>)
      requires Sound(s) && c !in s.calls && token != "" && limits.Normalised() && Addressable(sql)
      modifies this
      ensures out.None? <==> initialize && !Fits(sql, limits)
      ensures out.None? ==> s == old(s) && back.None?
      ensures Sound(s) && Reached(env, old(s), s)
      ensures out.Some? ==> c in s.calls && s.calls[c].op == CreateIslet(initialize, sql)
                            && s.calls[c].pc == Done(out.value)
                            && s.calls[c].back == back && HandleOk(s.calls[c])
      ensures out.Some? ==> OutcomeOk(CreateIslet(initialize, sql), out.value, TxOf(s, c, 0), TxOf(s, c, 1))
      ensures out.Some? && (out.value.Unconfirmed? || (out.value.Success? && !initialize)) ==>
                back.Some? && back.value.state == Active && back.value.handle == s.calls[c].next
    {
      hide Inv, HandlesOk, OutcomeOk, HandleOk;
      if initialize {
        var fits := CheckSize(sql, limits);
        if !fits {
          ReachedNothing(env, s);
          return None, None;
        }
      }
      ReachedNothing(env, s);
      Take(Invoke(c, CreateIslet(initialize, sql), Handle(id, 1)));
      Others(c);
      var made: bool := *;
      // `opaque` never draws the same identifier twice.
      if !made || id in s.ids {
        Abandon(c, ErrorKind.Lifecycle);
      } else {
        CanMake(s, c, id, token);
        Take(MakeIslet(c, id, token));
        var _ := CommitLifecycle(c, limits, Work.Create(initialize));
      }
      out, back := Some(s.calls[c].pc.outcome), s.calls[c].back;
      KeepsPromise(s, c);
      HandsOver(s, c);
    }
  }
}
