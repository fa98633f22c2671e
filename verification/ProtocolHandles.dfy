/**
 The handles that calls return. An initialising call reads its islet once more after its batch
 has committed, and that read can fail, or find a later generation. These are the exact things
 a caller may conclude from what it gets back.
 */
module ProtocolHandles {
  import opened Wrappers
  import opened Gateway
  import opened Protocol
  import opened ProtocolInvariant
  import opened ProtocolSteps
  import opened Serial
  import opened ProtocolHonesty
  import opened ProtocolOthers

  /** The handle of the generation that a call makes. */
  function MadeBy(call: Call): Handle {
    if call.op.Lifecycle? then Handle(call.handle.id, call.handle.generation + 1) else call.next
  }

  /** A handle of the islet at the generation the call has made, or a later one. */
  predicate IsCurrent(call: Call) {
    && call.back.Some? && call.back.value.handle.id == call.next.id
    && call.back.value.handle.generation >= call.next.generation
  }

  predicate Offers(call: Call, h: Handle, state: Status) {
    call.back == Some(Returned(h, state))
  }

  predicate MakesGeneration(op: Op) {
    op.CreateIslet? || (op.Lifecycle? && op.action.Reset?)
  }

  /** An error before the commit comes with an empty handle, one of the commit with the handle it
      was to make. */
  predicate OffersAtMost(call: Call) {
    call.back.None? || (MakesGeneration(call.op) && Offers(call, MadeBy(call), Fresh(Initializes(call.op))))
  }

  /** What a call has in hand, told from where it is. */
  predicate BackOk(call: Call) {
    match call.pc
    case Start => call.back.None?
    case Looked(_, _) => if call.op.Batch? then call.back.None? else Offers(call, call.next, Initializing)
    case InTx(k) => if k == 0 then call.back.None? else Offers(call, call.next, Initializing)
    case Waiting(k) => if k == 0 then call.back.None? else Offers(call, call.next, Initializing)
    case Initialize => Offers(call, call.next, Initializing)
    case Late => IsCurrent(call)
    case Reopening => Offers(call, call.next, Active)
    case Done(Success) =>
      if Initializes(call.op) then IsCurrent(call)
      else if MakesGeneration(call.op) then Offers(call, call.next, Active)
      else call.back.None?
    case Done(Refused(_)) => OffersAtMost(call)
    case Done(Unknown) => OffersAtMost(call)
    case Done(Unconfirmed(_)) => Offers(call, call.next, Active)
    case Done(InitializationFailed) => IsCurrent(call)
    case Done(Crashed) => true
  }

  /** The lifecycle transaction of a call has been seen to commit. */
  predicate IsPast(call: Call) {
    match call.pc
    case Start => false
    case Looked(_, _) => !call.op.Batch?
    case InTx(k) => k == 1
    case Waiting(k) => k == 1
    case Done(outcome) => outcome.Success? || outcome.InitializationFailed? || outcome.Unconfirmed?
    case _ => true
  }

  predicate HandleOk(call: Call) {
    BackOk(call) && (IsPast(call) && MakesGeneration(call.op) ==> call.next == MadeBy(call))
  }

  // ------------------------------------------------------------------------- every step

  /** An error leaves what the call has in hand as it was. */
  lemma FailsWell(call: Call, kind: ErrorKind)
    requires HandleOk(call) && !call.pc.Done? && (call.pc.InTx? ==> call.pc.stage <= 1)
             && (call.pc.Waiting? ==> call.pc.stage <= 1)
    ensures HandleOk(call.(pc := Failing(call, kind)))
  {
  }

  /** The statements inside a transaction do not touch their call, unless they fail. */
  lemma StatementStep(s: State, e: Event, c: CallId)
    requires Step(s, e).Some? && IsInside(e) && Client(e) == Some(c) && c in s.calls
    ensures var s' := Step(s, e).value;
            && c in s'.calls
            && (s'.calls[c] == s.calls[c] || exists kind :: s'.calls[c] == s.calls[c].(pc := Failing(s.calls[c], kind)))
    ensures s.calls[c].pc.InTx?
  {
    hide Finish, Reach, MarkFailed, FreshRow, Failing, BackOk, IsPast;
  }

  lemma LookupStep(s: State, c: CallId)
    requires Step(s, Lookup(c)).Some? && HandleOk(s.calls[c]) && (s.calls[c].pc == Initialize ==> !s.calls[c].op.Batch?)
    ensures c in Step(s, Lookup(c)).value.calls && HandleOk(Step(s, Lookup(c)).value.calls[c])
  {
    FailsWell(s.calls[c], NotFound);
    FailsWell(s.calls[c], Stale);
  }

  lemma SendStep(s: State, c: CallId)
    requires Step(s, Send(c)).Some? && HandleOk(s.calls[c])
    ensures c in Step(s, Send(c)).value.calls && HandleOk(Step(s, Send(c)).value.calls[c])
  {
    hide Complete;
  }

  lemma GiveUpStep(s: State, c: CallId, kind: ErrorKind)
    requires Step(s, GiveUp(c, kind)).Some? && HandleOk(s.calls[c])
             && (s.calls[c].pc.InTx? ==> s.calls[c].pc.stage <= 1)
    ensures c in Step(s, GiveUp(c, kind)).value.calls && HandleOk(Step(s, GiveUp(c, kind)).value.calls[c])
  {
    FailsWell(s.calls[c], kind);
    hide HandleOk, Failing;
  }

  lemma CrashStep(s: State, c: CallId)
    requires Step(s, Crash(c)).Some? && HandleOk(s.calls[c])
    ensures c in Step(s, Crash(c)).value.calls && HandleOk(Step(s, Crash(c)).value.calls[c])
  {
  }

  lemma PostStep(s: State, c: CallId)
    requires Step(s, PostLate(c)).Some? && HandleOk(s.calls[c])
    ensures c in Step(s, PostLate(c)).value.calls && HandleOk(Step(s, PostLate(c)).value.calls[c])
  {
  }

  lemma EnterStep(s: State, c: CallId)
    requires Step(s, EnterGateway(c)).Some? && HandleOk(s.calls[c])
    ensures c in Step(s, EnterGateway(c)).value.calls && HandleOk(Step(s, EnterGateway(c)).value.calls[c])
  {
    hide Enter;
  }

  lemma MakeStep(s: State, c: CallId, id: string, token: string)
    requires Step(s, MakeIslet(c, id, token)).Some? && HandleOk(s.calls[c])
    ensures c in Step(s, MakeIslet(c, id, token)).value.calls
            && HandleOk(Step(s, MakeIslet(c, id, token)).value.calls[c])
  {
    hide FreshRow;
  }

  lemma LockStep(s: State, c: CallId)
    requires Step(s, LockRow(c)).Some? && HandleOk(s.calls[c])
    ensures c in Step(s, LockRow(c)).value.calls && HandleOk(Step(s, LockRow(c)).value.calls[c])
  {
    assert Step(s, LockRow(c)) == DoLock(s, c);
    hide Step;
  }

  /** A reply: the call has in hand what it returned with its commit, or what follows a commit. */
  lemma RepliesWell(call: Call, k: nat, tx: Tx, lost: bool)
    requires HandleOk(call) && call.pc == Waiting(k) && k <= 1
             && Belongs(call.op, call.handle, call.next, TxId(0, k), tx.id, tx.work)
    requires Replying(Committing(call, tx.work), k, tx, lost).Some?
    ensures HandleOk(Replying(Committing(call, tx.work), k, tx, lost).value)
  {
  }

  lemma ReplyStep(s: State, c: CallId, lost: bool)
    requires Inv(s) && Step(s, Reply(c, lost)).Some? && HandleOk(s.calls[c])
    ensures c in Step(s, Reply(c, lost)).value.calls && HandleOk(Step(s, Reply(c, lost)).value.calls[c])
  {
    var t := TxId(c, s.calls[c].pc.stage);
    assert CallOk(s.calls[c], TxOf(s, c, 0), TxOf(s, c, 1)) && TxOk(s, t, s.txs[t]);
    assert Belongs(s.calls[c].op, s.calls[c].handle, s.calls[c].next, TxId(0, t.stage), s.txs[t].id, s.txs[t].work);
    hide Inv, TxOk, CallOk, HandleOk, Belongs, Replying, Committing;
    RepliesWell(s.calls[c], t.stage, s.txs[t], lost);
  }

  lemma ReopenStep(s: State, c: CallId)
    requires Inv(s) && Step(s, Reopen(c)).Some? && HandleOk(s.calls[c])
    ensures c in Step(s, Reopen(c)).value.calls && HandleOk(Step(s, Reopen(c)).value.calls[c])
  {
    var call := s.calls[c];
    assert CallOk(call, TxOf(s, c, 0), TxOf(s, c, 1)) && CallSeen(s, call);
    assert call.pc == Reopening ==> Initializes(call.op);
    assert Step(s, Reopen(c)) == DoReopen(s, c);
    hide Inv, Step, CallOk;
    var v := At(s, call.next.id);
    if v.row.Some? {
      ReopensWell(call, v.row.value);
    } else {
      FailsWell(call, NotFound);
    }
    hide HandleOk, Reopened, Failing;
  }

  lemma ReopensWell(call: Call, row: Row)
    requires HandleOk(call) && (call.pc == Late || call.pc == Reopening) && row.generation >= call.next.generation
    requires call.pc == Reopening ==> Initializes(call.op)
    ensures HandleOk(Reopened(call, row))
  {
  }

  lemma OwnStep(s: State, e: Event, c: CallId)
    requires Inv(s) && Step(s, e).Some? && Client(e) == Some(c) && c in s.calls && HandleOk(s.calls[c])
    ensures c in Step(s, e).value.calls && HandleOk(Step(s, e).value.calls[c])
  {
    hide *;
    StagesOk(s, c);
    ClientIs(e, c);
    match e
    case Lookup(_) => LookupStep(s, c);
    case EnterGateway(_) => EnterStep(s, c);
    case LockRow(_) => LockStep(s, c);
    case MakeIslet(_, id, token) => MakeStep(s, c, id, token);
    case Send(_) => SendStep(s, c);
    case Reply(_, lost) => ReplyStep(s, c, lost);
    case Reopen(_) => ReopenStep(s, c);
    case Crash(_) => CrashStep(s, c);
    case PostLate(_) => PostStep(s, c);
    case GiveUp(_, kind) => GiveUpStep(s, c, kind);
    case Invoke(_, _, _) => NotAgain(s, e, c);
    case _ => StatementKeeps(s, e, c);
  }

  lemma ClientIs(e: Event, c: CallId)
    requires Client(e) == Some(c)
    ensures !e.ServerCommit? && !e.ServerAbort? && !e.LateUpdate? && e.c == c
    ensures !IsInside(e) ==> e.Lookup? || e.EnterGateway? || e.LockRow? || e.MakeIslet? || e.Send?
                             || e.Reply? || e.Reopen?
                                || e.Crash? || e.PostLate? || e.GiveUp? || e.Invoke?
  {
  }

  lemma NotAgain(s: State, e: Event, c: CallId)
    requires e.Invoke? && e.c == c && c in s.calls
    ensures Step(s, e).None?
  {
  }

  lemma StatementKeeps(s: State, e: Event, c: CallId)
    requires Step(s, e).Some? && IsInside(e) && Client(e) == Some(c) && c in s.calls && HandleOk(s.calls[c])
    requires s.calls[c].pc.InTx? ==> s.calls[c].pc.stage <= 1
    ensures c in Step(s, e).value.calls && HandleOk(Step(s, e).value.calls[c])
  {
    hide Step, HandleOk, Failing;
    StatementStep(s, e, c);
    var call := s.calls[c];
    if Step(s, e).value.calls[c] != call {
      var kind :| Step(s, e).value.calls[c] == call.(pc := Failing(call, kind));
      FailsWell(call, kind);
    }
  }

  lemma StagesOk(s: State, c: CallId)
    requires Inv(s) && c in s.calls
    ensures s.calls[c].pc.InTx? ==> s.calls[c].pc.stage <= 1
    ensures s.calls[c].pc == Initialize ==> !s.calls[c].op.Batch?
  {
    assert CallOk(s.calls[c], TxOf(s, c, 0), TxOf(s, c, 1));
  }

  /** Every step keeps what a call may hand back. */
  lemma HandleStep(s: State, e: Event, c: CallId)
    requires Inv(s) && Step(s, e).Some? && (c in s.calls ==> HandleOk(s.calls[c])) && c in Step(s, e).value.calls
    ensures HandleOk(Step(s, e).value.calls[c])
  {
    if c !in s.calls {
      NewCall(s, e, c);
    } else {
      hide Inv, Step, HandleOk;
      if Client(e) == Some(c) {
        OwnStep(s, e, c);
      } else {
        OthersStep(s, e, c);
      }
    }
  }

  ghost predicate HandlesOk(s: State) {
    forall c <- s.calls :: HandleOk(s.calls[c])
  }

  lemma HandlesStep(s: State, e: Event)
    requires Inv(s) && HandlesOk(s) && Step(s, e).Some?
    ensures HandlesOk(Step(s, e).value)
  {
    hide Inv, Step, HandleOk;
    forall c <- Step(s, e).value.calls ensures HandleOk(Step(s, e).value.calls[c]) {
      HandleStep(s, e, c);
    }
  }

  lemma NewCall(s: State, e: Event, c: CallId)
    requires Step(s, e).Some? && c !in s.calls && c in Step(s, e).value.calls
    ensures HandleOk(Step(s, e).value.calls[c])
  {
    if e.Invoke? {
    } else {
      NoNewCall(s, e, c);
    }
  }

  lemma NoNewCall(s: State, e: Event, c: CallId)
    requires Step(s, e).Some? && c !in s.calls && !e.Invoke?
    ensures c !in Step(s, e).value.calls
  {
    hide Enter, Finish, Complete, LateMatches, Reach, MarkFailed, FreshRow, Failing, Committing, AfterCommit;
  }

  lemma {:induction false} HandleRun(s: State, es: seq<Event>, c: CallId)
    requires Inv(s) && Steps(s, es).Some? && (c in s.calls ==> HandleOk(s.calls[c])) && c in Steps(s, es).value.calls
    ensures HandleOk(Steps(s, es).value.calls[c])
    decreases |es|
  {
    if es != [] {
      var s1 := Step(s, es[0]).value;
      StepKeeps(s, es[0]);
      if c in s1.calls {
        HandleStep(s, es[0], c);
      }
      hide Inv, Step, HandleOk;
      HandleRun(s1, es[1..], c);
    }
  }

  // ------------------------------------------------------------------- what the caller gets

  /** The handle a successful call returns. Without an initialisation it is that of the generation
      the call has made, active. With one it was read after the commit, and may be of a later
      generation. */
  lemma SuccessReturns(es: seq<Event>, c: CallId)
    requires Steps(INITIAL, es).Some?
    requires var s := Steps(INITIAL, es).value;
             c in s.calls && s.calls[c].pc == Done(Success) && MakesGeneration(s.calls[c].op)
    ensures var call := Steps(INITIAL, es).value.calls[c];
            if Initializes(call.op) then
              && call.back.Some? && call.back.value.handle.id == MadeBy(call).id
              && call.back.value.handle.generation >= MadeBy(call).generation
            else Offers(call, MadeBy(call), Active)
  {
    HandleRun(INITIAL, es, c);
  }

  /** An initialising call that fails, but not with the error of the initialisation, has
      nevertheless performed both its operations, in exactly one case: that the handle it returns
      is active. Then it is the handle of the new generation. */
  lemma ActiveHandleTells(es: seq<Event>, c: CallId)
    requires Steps(INITIAL, es).Some?
    requires var s := Steps(INITIAL, es).value;
             && c in s.calls && Initializes(s.calls[c].op) && s.calls[c].pc.Done?
             && s.calls[c].pc.outcome !in {Success, InitializationFailed, Crashed}
    ensures var call, done := Steps(INITIAL, es).value.calls[c], DoneBy(INITIAL, es, c);
            && (|done| == 2 && IsMain(done[0]) && done[1].Ran? <==> call.back.Some? && call.back.value.state == Active)
            && (|done| == 2 ==> Offers(call, MadeBy(call), Active))
            && (|done| == 2 <==> call.pc.outcome.Unconfirmed?)
  {
    HandleRun(INITIAL, es, c);
    LifecycleOutcomesAreHonest(es, c);
    hide Steps, DoneBy, AskedFor, HandleOk, Honest, INITIAL;
    Tells(Steps(INITIAL, es).value.calls[c], DoneBy(INITIAL, es, c));
  }

  lemma Tells(call: Call, done: seq<Operation>)
    requires HandleOk(call) && call.pc.Done? && Initializes(call.op) && Honest(call, call.pc.outcome, done)
    requires call.pc.outcome !in {Success, InitializationFailed, Crashed}
    ensures |done| == 2 && IsMain(done[0]) && done[1].Ran? <==> call.back.Some? && call.back.value.state == Active
    ensures |done| == 2 ==> Offers(call, MadeBy(call), Active)
    ensures |done| == 2 <==> call.pc.outcome.Unconfirmed?
  {
  }
}
