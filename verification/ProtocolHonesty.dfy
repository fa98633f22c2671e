/** What a caller may conclude from the outcome of a call that manages an islet: which operations
    the call has performed by then, over the whole run. */
module ProtocolHonesty {
  import opened Wrappers
  import opened Gateway
  import opened Protocol
  import opened ProtocolInvariant
  import opened ProtocolSteps
  import opened Serial
  import opened ProtocolRuns

  /** The operation a step performs for a call. */
  function DoneIn(s: State, e: Event, c: CallId): seq<Operation> {
    if Effect(s, e).Some? && CallOf(e) == Some(c) then [Effect(s, e).value] else []
  }

  /** All operations of one call in a run, in the order of the run. */
  function DoneBy(s: State, es: seq<Event>, c: CallId): seq<Operation>
    decreases |es|
  {
    if es == [] then []
    else match Step(s, es[0])
         case None => []
         case Some(s1) => DoneIn(s, es[0], c) + DoneBy(s1, es[1..], c)
  }

  // ------------------------------------------------------------- the operations of a call

  /** What the transaction of a stage has committed. */
  function CommittedIn(s: State, c: CallId, stage: nat): seq<Operation> {
    match TxOf(s, c, stage)
    case None => []
    case Some(tx) => if tx.phase == Committed then [OperationOf(TxId(c, stage), tx)] else []
  }

  /** The generation has been seen, and is not initializing any more. */
  predicate NoLonger(s: State, h: Handle) {
    Seen(s, h.id, h.generation) && !LateMatches(s.db[h.id], h.generation)
  }

  /** An operation that a call to create, reset or delete is meant to perform. */
  predicate IsMain(o: Operation) {
    o.Created? || o.Emptied? || o.Removed?
  }

  predicate FirstDone(s: State, c: CallId) {
    CommittedIn(s, c, 0) != [] && IsMain(CommittedIn(s, c, 0)[0])
  }

  function FailureOf(call: Call, failed: bool): seq<Operation> {
    if failed then [InitFailed(call.next.id, call.next.generation)] else []
  }

  /** The operations of a call, told from a state: at most one for each of its transactions, and
      perhaps the record of a failed initialisation, but not together with its batch. */
  predicate Ledger(s: State, c: CallId, done: seq<Operation>, failed: bool) {
    && (TxOf(s, c, 1).Some? ==> FirstDone(s, c))
    && if c !in s.calls then done == [] && !failed && TxOf(s, c, 0).None?
       else
         && done == CommittedIn(s, c, 0) + CommittedIn(s, c, 1) + FailureOf(s.calls[c], failed)
         && (failed ==> s.calls[c].posted && CommittedIn(s, c, 1) == [])
         && (failed || CommittedIn(s, c, 1) != [] ==> NoLonger(s, s.calls[c].next))
  }

  // ------------------------------------------------------------------ what a step changes

  lemma NewlyCommitted(s: State, e: Event, c: CallId, stage: nat)
    requires Step(s, e).Some? && e != ServerCommit(TxId(c, stage))
    ensures CommittedIn(Step(s, e).value, c, stage) == CommittedIn(s, c, stage)
  {
    if ManagesIslet(e) {
      hide Step;
      ManagedCommit(s, e, c, stage);
    } else {
      hide OperationOf, DoLock, DoCheck, DoDrop, DoRebuild, DoRevert, DoUpdate, DoMake, Enter, Finish, Complete,
        LateMatches;
      hide AfterCommit, Failing;
    }
  }

  lemma ManagedCommit(s: State, e: Event, c: CallId, stage: nat)
    requires Step(s, e).Some? && ManagesIslet(e)
    ensures CommittedIn(Step(s, e).value, c, stage) == CommittedIn(s, c, stage)
  {
    hide OperationOf, Failing, MarkFailed, FreshRow;
  }

  lemma Commits(s: State, c: CallId, stage: nat)
    requires Step(s, ServerCommit(TxId(c, stage))).Some?
    ensures CommittedIn(s, c, stage) == []
    ensures CommittedIn(Step(s, ServerCommit(TxId(c, stage))).value, c, stage)
         == DoneIn(s, ServerCommit(TxId(c, stage)), c)
    ensures Step(s, ServerCommit(TxId(c, stage))).value.calls == s.calls
  {
  }

  /** A call only gets on, and the handle of its initialisation stays once it is used. */
  lemma HandleStays(s: State, e: Event, c: CallId)
    requires Inv(s) && Step(s, e).Some? && c in s.calls
    ensures c in Step(s, e).value.calls
    ensures s.calls[c].posted ==> Step(s, e).value.calls[c].posted
    ensures s.calls[c].posted || TxOf(s, c, 1).Some? ==> Step(s, e).value.calls[c].next == s.calls[c].next
  {
    if e.Reply? || e.MakeIslet? {
      MovesOn(s, e, c);
    } else {
      NextStays(s, e, c);
    }
  }

  lemma NextStays(s: State, e: Event, c: CallId)
    requires Step(s, e).Some? && c in s.calls && !e.Reply? && !e.MakeIslet?
    ensures c in Step(s, e).value.calls && Step(s, e).value.calls[c].next == s.calls[c].next
    ensures s.calls[c].posted ==> Step(s, e).value.calls[c].posted
  {
    if ManagesIslet(e) {
      hide Step;
      ManagedNext(s, e, c);
    } else {
      hide DoLock, DoCheck, DoDrop, DoRebuild, DoRevert, DoUpdate, DoMake, Enter, Finish, Failing, Complete,
        LateMatches;
    }
  }

  lemma ManagedNext(s: State, e: Event, c: CallId)
    requires Step(s, e).Some? && c in s.calls && ManagesIslet(e) && !e.MakeIslet?
    ensures c in Step(s, e).value.calls && Step(s, e).value.calls[c].next == s.calls[c].next
    ensures s.calls[c].posted ==> Step(s, e).value.calls[c].posted
  {
    hide Failing, Reach, MarkFailed, FreshRow;
  }

  lemma MovesOn(s: State, e: Event, c: CallId)
    requires Inv(s) && Step(s, e).Some? && c in s.calls && (e.Reply? || e.MakeIslet?)
    ensures c in Step(s, e).value.calls
    ensures s.calls[c].posted ==> Step(s, e).value.calls[c].posted
    ensures s.calls[c].posted || TxOf(s, c, 1).Some? ==> Step(s, e).value.calls[c].next == s.calls[c].next
  {
    assert CallOk(s.calls[c], TxOf(s, c, 0), TxOf(s, c, 1));
    hide Inv, Failing, OutcomeOk, FreshRow;
    if e.Reply? {
      hide DoMake;
    } else {
      hide DoReply;
    }
  }

  lemma NoLongerStays(s: State, s': State, h: Handle)
    requires DbLater(s, s') && NoLonger(s, h)
    ensures NoLonger(s', h)
  {
    assert ViewLater(s.db[h.id], s'.db[h.id]);
  }

  /** The second transaction of a call begins after the first has committed. */
  lemma SecondAfterFirst(s: State, e: Event, c: CallId)
    requires Inv(s) && Step(s, e).Some? && TxOf(s, c, 1).None? && TxOf(Step(s, e).value, c, 1).Some?
    ensures FirstDone(s, c)
  {
    if !e.EnterGateway? {
      NoSecond(s, e, c);
    }
    EntersPrepared(s, e, c);
    hide Inv, Step, Prepared, FirstDone;
    PreparedDone(s, c);
  }

  lemma EntersPrepared(s: State, e: Event, c: CallId)
    requires Inv(s) && Step(s, e).Some? && e.EnterGateway? && TxOf(s, c, 1).None? && TxOf(Step(s, e).value, c, 1).Some?
    ensures c in s.calls && Prepared(s.calls[c].op, TxOf(s, c, 0))
  {
    assert CallOk(s.calls[e.c], TxOf(s, e.c, 0), TxOf(s, e.c, 1));
    hide Inv, Enter, OutcomeOk;
  }

  lemma PreparedDone(s: State, c: CallId)
    requires Inv(s) && c in s.calls && Prepared(s.calls[c].op, TxOf(s, c, 0))
    ensures FirstDone(s, c)
  {
    assert TxOk(s, TxId(c, 0), s.txs[TxId(c, 0)]);
    hide Inv, WorkOk, Complete;
  }

  lemma NoSecond(s: State, e: Event, c: CallId)
    requires Step(s, e).Some? && !e.EnterGateway? && TxOf(s, c, 1).None?
    ensures TxOf(Step(s, e).value, c, 1).None?
  {
    hide Finish, Complete, MarkFailed, FreshRow, LateMatches, AfterCommit, Failing;
  }

  // --------------------------------------------------------------------------- the ledger

  lemma LedgerStarts(c: CallId)
    ensures Ledger(INITIAL, c, [], false)
  {
  }

  /** A step that commits nothing for the call. */
  lemma LedgerStays(s: State, e: Event, c: CallId, done: seq<Operation>, failed: bool)
    requires Inv(s) && Step(s, e).Some? && Ledger(s, c, done, failed)
    requires CommittedIn(Step(s, e).value, c, 0) == CommittedIn(s, c, 0)
    requires CommittedIn(Step(s, e).value, c, 1) == CommittedIn(s, c, 1)
    ensures Ledger(Step(s, e).value, c, done, failed)
  {
    var s' := Step(s, e).value;
    StepDbLater(s, e);
    if TxOf(s, c, 1).None? && TxOf(s', c, 1).Some? {
      SecondAfterFirst(s, e, c);
    }
    if c in s.calls {
      HandleStays(s, e, c);
    } else {
      NotYetCalled(s, e, c);
    }
    hide Inv, Step, CommittedIn, NoLonger, DbLater;
    if c in s.calls && (failed || CommittedIn(s, c, 1) != []) {
      NoLongerStays(s, s', s.calls[c].next);
    }
  }

  /** A call that has not begun has no transaction, and does not get one when it begins. */
  lemma NotYetCalled(s: State, e: Event, c: CallId)
    requires Inv(s) && Step(s, e).Some? && c !in s.calls
    ensures TxOf(Step(s, e).value, c, 0).None? && TxOf(Step(s, e).value, c, 1).None?
  {
    StepKeeps(s, e);
    assert TxId(c, 0) in s.txs ==> TxOk(s, TxId(c, 0), s.txs[TxId(c, 0)]);
    assert TxId(c, 1) in s.txs ==> TxOk(s, TxId(c, 1), s.txs[TxId(c, 1)]);
    Untouched(s, e, c);
  }

  lemma Untouched(s: State, e: Event, c: CallId)
    requires Step(s, e).Some? && c !in s.calls && TxOf(s, c, 0).None? && TxOf(s, c, 1).None?
    ensures TxOf(Step(s, e).value, c, 0).None? && TxOf(Step(s, e).value, c, 1).None?
  {
    hide Enter, Finish, Complete, MarkFailed, Reach, FreshRow, LateMatches, Replying, Committing, Reopened, Failing;
  }

  /** The first transaction commits: nothing has been done before. */
  lemma FirstCommits(s: State, c: CallId, done: seq<Operation>, failed: bool)
    requires Inv(s) && Step(s, ServerCommit(TxId(c, 0))).Some? && Ledger(s, c, done, failed)
    ensures Ledger(Step(s, ServerCommit(TxId(c, 0))).value, c, done + DoneIn(s, ServerCommit(TxId(c, 0)), c), failed)
  {
    var e := ServerCommit(TxId(c, 0));
    FirstIsFirst(s, c);
    hide Inv, DoCommit, CommittedIn, Step, NoLonger, DoneIn;
    Commits(s, c, 0);
    NewlyCommitted(s, e, c, 1);
    SameStages(s, c, 0);
    OneMore([], DoneIn(s, e, c));
  }

  lemma FirstIsFirst(s: State, c: CallId)
    requires Inv(s) && Step(s, ServerCommit(TxId(c, 0))).Some?
    ensures c in s.calls && !s.calls[c].posted && CommittedIn(s, c, 0) == []
    ensures TxOf(s, c, 1).None? ==> CommittedIn(s, c, 1) == []
  {
    assert TxOk(s, TxId(c, 0), s.txs[TxId(c, 0)]);
    assert CallOk(s.calls[c], TxOf(s, c, 0), TxOf(s, c, 1));
    hide Inv;
  }

  lemma SameStages(s: State, c: CallId, stage: nat)
    requires Step(s, ServerCommit(TxId(c, stage))).Some?
    ensures var s' := Step(s, ServerCommit(TxId(c, stage))).value; TxOf(s', c, 1).Some? <==> TxOf(s, c, 1).Some?
  {
  }

  /** The batch of an initialisation commits: its failure has not been recorded, and will not be. */
  lemma SecondCommits(s: State, c: CallId, done: seq<Operation>, failed: bool)
    requires Inv(s) && Step(s, ServerCommit(TxId(c, 1))).Some? && Ledger(s, c, done, failed)
    ensures Ledger(Step(s, ServerCommit(TxId(c, 1))).value, c, done + DoneIn(s, ServerCommit(TxId(c, 1)), c), failed)
  {
    var e := ServerCommit(TxId(c, 1));
    hide Inv, DoCommit, CommittedIn, Step, NoLonger, DoneIn;
    Commits(s, c, 1);
    NewlyCommitted(s, e, c, 0);
    SecondWork(s, c);
    SameStages(s, c, 1);
    assert !failed && done == CommittedIn(s, c, 0);
    OneMore(done, DoneIn(s, e, c));
  }

  lemma OneMore<T>(done: seq<T>, more: seq<T>)
    ensures done + more + [] == done + more && [] + more + [] == more
  {
  }

  lemma SecondWork(s: State, c: CallId)
    requires Inv(s) && Step(s, ServerCommit(TxId(c, 1))).Some?
    ensures c in s.calls && !NoLonger(s, s.calls[c].next)
    ensures NoLonger(Step(s, ServerCommit(TxId(c, 1))).value, s.calls[c].next)
  {
    var t := TxId(c, 1);
    assert TxOk(s, t, s.txs[t]);
    hide Inv;
  }

  /** The late update matches: the batch has not committed, and will not. */
  lemma FailureRecorded(s: State, c: CallId, done: seq<Operation>, failed: bool)
    requires Inv(s) && Step(s, LateUpdate(c)).Some? && Effect(s, LateUpdate(c)).Some? && Ledger(s, c, done, failed)
    ensures Ledger(Step(s, LateUpdate(c)).value, c, done + DoneIn(s, LateUpdate(c), c), true)
  {
    var h := s.calls[c].next;
    assert CallSeen(s, s.calls[c]);
    hide Inv;
  }

  lemma LedgerStep(s: State, e: Event, c: CallId, done: seq<Operation>, failed: bool) returns (failed': bool)
    requires Inv(s) && Step(s, e).Some? && Ledger(s, c, done, failed)
    ensures Ledger(Step(s, e).value, c, done + DoneIn(s, e, c), failed')
  {
    hide Inv, Step, Ledger, CommittedIn;
    failed' := failed;
    if e == ServerCommit(TxId(c, 0)) {
      FirstCommits(s, c, done, failed);
    } else if e == ServerCommit(TxId(c, 1)) {
      SecondCommits(s, c, done, failed);
    } else if e == LateUpdate(c) && Effect(s, e).Some? {
      FailureRecorded(s, c, done, failed);
      failed' := true;
    } else {
      NewlyCommitted(s, e, c, 0);
      NewlyCommitted(s, e, c, 1);
      LedgerStays(s, e, c, done, failed);
      NothingDone(s, e, c);
      assert done + [] == done;
    }
  }

  lemma NothingDone(s: State, e: Event, c: CallId)
    requires Inv(s) && Step(s, e).Some? && e != ServerCommit(TxId(c, 0)) && e != ServerCommit(TxId(c, 1))
    requires e == LateUpdate(c) ==> Effect(s, e).None?
    ensures DoneIn(s, e, c) == []
  {
    if e.ServerCommit? {
      StageOk(s, e.t);
    }
    hide Inv;
  }

  lemma {:induction false} LedgerRun(s: State, es: seq<Event>, c: CallId, done: seq<Operation>, failed: bool)
    returns (failed': bool)
    requires Inv(s) && Steps(s, es).Some? && Ledger(s, c, done, failed)
    ensures Ledger(Steps(s, es).value, c, done + DoneBy(s, es, c), failed')
    decreases |es|
  {
    if es == [] {
      assert done + [] == done;
      failed' := failed;
    } else {
      var s1 := Step(s, es[0]).value;
      StepKeeps(s, es[0]);
      var failed1 := LedgerStep(s, es[0], c, done, failed);
      DoneByFirst(s, es, c, done);
      hide Inv, Step, Ledger, DoneIn, DoneBy, Effect;
      failed' := LedgerRun(s1, es[1..], c, done + DoneIn(s, es[0], c), failed1);
    }
  }

  lemma DoneByFirst(s: State, es: seq<Event>, c: CallId, done: seq<Operation>)
    requires es != [] && Step(s, es[0]).Some?
    ensures done + DoneBy(s, es, c) == done + DoneIn(s, es[0], c) + DoneBy(Step(s, es[0]).value, es[1..], c)
  {
    hide Step, DoneIn;
  }

  // -------------------------------------------------------------------------- the outcomes

  /** What each outcome says about the operations of its call. */
  predicate Honest(call: Call, outcome: Outcome, done: seq<Operation>) {
    match outcome
    case Success =>
      || (call.op.Lifecycle? && call.op.action.Delete? && done == [])
      || (|done| >= 1 && IsMain(done[0]) && if Initializes(call.op) then |done| == 2 && done[1].Ran? else |done| == 1)
    case Refused(_) => done == [] || (|done| == 1 && done[0].CleanupFailed?)
    case Unknown => done == [] || |done| == 1
    case Unconfirmed(_) => |done| == 2 && IsMain(done[0]) && done[1].Ran?
    case InitializationFailed =>
      |done| in {1, 2} && IsMain(done[0]) && (|done| == 2 ==> done[1].Ran? || done[1].InitFailed?)
    case Crashed => |done| <= 2 && (|done| == 2 ==> IsMain(done[0]) && (done[1].Ran? || done[1].InitFailed?))
  }

  /** At the end of any run: a call to create, reset, recover, reinitialise or delete that has
      succeeded has performed its operation, and its initialisation; one that was refused has
      done nothing, or marked the row failed; a failed initialisation leaves the emptied islet,
      the batch that was committed though the reply was lost, or the record of the failure; and
      one that could not be read again has been committed, all of it. Whatever was done is what
      the call asked for. */
  lemma LifecycleOutcomesAreHonest(es: seq<Event>, c: CallId)
    requires Steps(INITIAL, es).Some?
    requires var s := Steps(INITIAL, es).value; c in s.calls && !s.calls[c].op.Batch? && s.calls[c].pc.Done?
    ensures var call := Steps(INITIAL, es).value.calls[c];
            && Honest(call, call.pc.outcome, DoneBy(INITIAL, es, c))
            && forall o <- DoneBy(INITIAL, es, c) :: AskedFor(c, call, o)
  {
    var s := Steps(INITIAL, es).value;
    Reachable(INITIAL, es);
    LedgerStarts(c);
    var failed := LedgerRun(INITIAL, es, c, [], false);
    assert [] + DoneBy(INITIAL, es, c) == DoneBy(INITIAL, es, c);
    hide Steps, DoneBy;
    LedgerIsHonest(s, c, DoneBy(INITIAL, es, c), failed);
  }

  lemma LedgerIsHonest(s: State, c: CallId, done: seq<Operation>, failed: bool)
    requires Inv(s) && c in s.calls && !s.calls[c].op.Batch? && s.calls[c].pc.Done? && Ledger(s, c, done, failed)
    ensures Honest(s.calls[c], s.calls[c].pc.outcome, done)
    ensures forall o <- done :: AskedFor(c, s.calls[c], o)
  {
    assert CallOk(s.calls[c], TxOf(s, c, 0), TxOf(s, c, 1));
    Kinds(s, c);
    hide Inv, OperationOf, NoLonger, AskedFor;
    forall o <- done ensures AskedFor(c, s.calls[c], o) {
      assert o in CommittedIn(s, c, 0) || o in CommittedIn(s, c, 1) || o in FailureOf(s.calls[c], failed);
      FailureAskedFor(s, c, failed);
    }
  }

  lemma FailureAskedFor(s: State, c: CallId, failed: bool)
    requires c in s.calls && (failed ==> Initializes(s.calls[c].op))
    ensures failed ==> AskedFor(c, s.calls[c], InitFailed(s.calls[c].next.id, s.calls[c].next.generation))
  {
  }

  lemma Kinds(s: State, c: CallId)
    requires Inv(s) && c in s.calls && !s.calls[c].op.Batch?
    ensures forall o <- CommittedIn(s, c, 0) ::
              AskedFor(c, s.calls[c], o) && (if IsMarked(TxOf(s, c, 0).value.work) then o.CleanupFailed? else IsMain(o))
    ensures forall o <- CommittedIn(s, c, 1) :: AskedFor(c, s.calls[c], o) && o.Ran?
  {
    if TxId(c, 0) in s.txs {
      assert TxOk(s, TxId(c, 0), s.txs[TxId(c, 0)]);
    }
    if TxId(c, 1) in s.txs {
      assert TxOk(s, TxId(c, 1), s.txs[TxId(c, 1)]);
    }
    if CommittedIn(s, c, 0) != [] {
      CommitIsAskedFor(s, TxId(c, 0));
    }
    if CommittedIn(s, c, 1) != [] {
      CommitIsAskedFor(s, TxId(c, 1));
    }
    hide Inv, WorkOk, Complete;
  }
}
