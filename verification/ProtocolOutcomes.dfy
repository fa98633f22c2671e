/** What a caller may conclude from the outcome of a batch, and batches that come too late. */
module ProtocolOutcomes {
  import opened Wrappers
  import opened Gateway
  import opened Protocol
  import opened ProtocolInvariant
  import opened ProtocolSteps
  import opened Serial
  import opened ProtocolRuns

  /** The batches of one call among the operations of a run. */
  function RansOf(os: seq<Operation>, c: CallId): seq<Operation> {
    if os == [] then []
    else (if os[0].Ran? && os[0].author == c then [os[0]] else []) + RansOf(os[1..], c)
  }

  predicate RunCommitted(tx: Option<Tx>) {
    tx.Some? && tx.value.phase == Committed && tx.value.work.Run?
  }

  /** The statements of a call have been committed. */
  predicate DidRun(s: State, c: CallId) {
    RunCommitted(TxOf(s, c, 0)) || RunCommitted(TxOf(s, c, 1))
  }

  predicate RunsFor(s: State, e: Event, c: CallId) {
    Effect(s, e).Some? && Effect(s, e).value.Ran? && Effect(s, e).value.author == c
  }

  /** A step commits the statements of a call exactly when they become committed. */
  lemma StepRuns(s: State, e: Event, c: CallId)
    requires Inv(s) && Step(s, e).Some?
    ensures RunsFor(s, e, c) <==> !DidRun(s, c) && DidRun(Step(s, e).value, c)
    ensures DidRun(s, c) ==> DidRun(Step(s, e).value, c)
  {
    if e.ServerCommit? {
      CommitRuns(s, e.t, c);
    } else {
      OtherStepRuns(s, e, c);
    }
  }

  lemma CommitRuns(s: State, t: TxId, c: CallId)
    requires Inv(s) && DoCommit(s, t).Some?
    ensures RunsFor(s, ServerCommit(t), c) <==> !DidRun(s, c) && DidRun(DoCommit(s, t).value, c)
    ensures DidRun(s, c) ==> DidRun(DoCommit(s, t).value, c)
  {
    hide Inv, OperationOf, DoCommit;
    CommitPhases(s, t);
    StageOk(s, t);
    OneRun(s, c);
    OperationRuns(t, s.txs[t]);
  }

  lemma OperationRuns(t: TxId, tx: Tx)
    ensures OperationOf(t, tx).Ran? <==> tx.work.Run?
    ensures OperationOf(t, tx).Ran? ==> OperationOf(t, tx).author == t.call
  {
  }

  lemma CommitPhases(s: State, t: TxId)
    requires DoCommit(s, t).Some?
    ensures t in s.txs && s.txs[t].phase == CommitSent
    ensures forall c: CallId, k: nat ::
              TxOf(DoCommit(s, t).value, c, k)
              == (if t == TxId(c, k) then Some(s.txs[t].(phase := Phase.Committed)) else TxOf(s, c, k))
  {
  }

  /** At most one of the two transactions of a call runs its statements. */
  lemma OneRun(s: State, c: CallId)
    requires Inv(s)
    ensures TxOf(s, c, 0).Some? && TxOf(s, c, 0).value.work.Run? ==> TxOf(s, c, 1).None?
  {
    if TxId(c, 0) in s.txs {
      assert TxOk(s, TxId(c, 0), s.txs[TxId(c, 0)]);
    }
    hide WorkOk, Complete, Seen, CallsOk, DbOk, LocksOk;
  }

  lemma OtherStepRuns(s: State, e: Event, c: CallId)
    requires Step(s, e).Some? && !e.ServerCommit?
    ensures !RunsFor(s, e, c)
    ensures forall k: nat :: RunCommitted(TxOf(Step(s, e).value, c, k)) <==> RunCommitted(TxOf(s, c, k))
  {
    if ManagesIslet(e) {
      ManageStepRuns(s, e, c);
    } else {
      hide DoLock, DoCheck, DoDrop, DoRebuild, DoRevert, DoUpdate, DoMake, Enter, Finish;
    }
  }

  lemma ManageStepRuns(s: State, e: Event, c: CallId)
    requires Step(s, e).Some? && ManagesIslet(e)
    ensures forall k: nat :: RunCommitted(TxOf(Step(s, e).value, c, k)) <==> RunCommitted(TxOf(s, c, k))
  {
  }

  /** What a batch performs, if anything. */
  function BatchOperation(c: CallId, call: Call): Operation {
    Ran(call.handle.id, call.handle.generation, c, None, call.op.sql)
  }

  /** Over a whole run the statements of a batch are committed once or not at all, all of
      them together, in the islet and generation of its handle. */
  lemma {:induction false} BatchRunsOnce(s: State, es: seq<Event>, c: CallId)
    requires Inv(s) && Steps(s, es).Some?
    requires c in Steps(s, es).value.calls && Steps(s, es).value.calls[c].op.Batch?
    ensures RansOf(Effects(s, es), c) ==
            if !DidRun(s, c) && DidRun(Steps(s, es).value, c)
            then [BatchOperation(c, Steps(s, es).value.calls[c])] else []
    ensures DidRun(s, c) ==> DidRun(Steps(s, es).value, c)
    decreases |es|
  {
    hide Inv, Step, Effect, DidRun;
    if es != [] {
      var s1 := Step(s, es[0]).value;
      var s2 := Steps(s, es).value;
      var rest := Effects(s1, es[1..]);
      StepKeeps(s, es[0]);
      StepRuns(s, es[0], c);
      BatchRunsOnce(s1, es[1..], c);
      match Effect(s, es[0])
      case None => assert [] + rest == rest;
      case Some(o) =>
        assert ([o] + rest)[1..] == rest;
        if RunsFor(s, es[0], c) {
          RunLater(s, es);
          RunIsAskedFor(s, es[0], c);
          assert CallLater(s.calls[c], s2.calls[c]);
        }
    }
  }

  lemma RunIsAskedFor(s: State, e: Event, c: CallId)
    requires Inv(s) && Step(s, e).Some? && RunsFor(s, e, c)
    ensures c in s.calls
    ensures s.calls[c].op.Batch? ==> Effect(s, e).value == BatchOperation(c, s.calls[c])
  {
    EffectIsAskedFor(s, e);
    hide Inv, Step;
  }

  /** No statement of a call is in any workspace. */
  ghost predicate NoTrace(r: Registry, c: CallId) {
    forall id <- r :: forall w <- r[id].workspace :: w.author != c
  }

  lemma {:induction false} NoTraceKept(r: Registry, os: seq<Operation>, c: CallId)
    requires NoTrace(r, c) && PerformAll(r, os).Some? && RansOf(os, c) == []
    ensures NoTrace(PerformAll(r, os).value, c)
    decreases |os|
  {
    if os != [] {
      assert RansOf(os[1..], c) == [];
      NoTraceKept(Perform(r, os[0]).value, os[1..], c);
    }
  }

  /** What each outcome of a batch means, at the end of any run. Success: its statements were
      committed, once and all of them. A refusal: nothing of it is, or ever was, committed.
      Only an unknown outcome (or a caller that crashed) leaves both possibilities. */
  lemma BatchOutcomesAreHonest(es: seq<Event>, c: CallId)
    requires Steps(INITIAL, es).Some?
    requires var s := Steps(INITIAL, es).value; c in s.calls && s.calls[c].op.Batch? && s.calls[c].pc.Done?
    ensures var s := Steps(INITIAL, es).value;
            var ran := RansOf(Effects(INITIAL, es), c);
            match s.calls[c].pc.outcome
            case Success => ran == [BatchOperation(c, s.calls[c])]
            case Refused(_) => ran == [] && NoTrace(Published(s), c)
            case Unknown => ran == [] || ran == [BatchOperation(c, s.calls[c])]
            case Crashed => ran == [] || ran == [BatchOperation(c, s.calls[c])]
            case InitializationFailed => false
            case Unconfirmed(_) => false
  {
    var s := Steps(INITIAL, es).value;
    Reachable(INITIAL, es);
    Serializable(es);
    BatchRunsOnce(INITIAL, es, c);
    BatchOutcome(s, c);
    hide Inv, Steps, Effects, Published, BatchOperation, DidRun;
    if s.calls[c].pc.outcome.Refused? {
      NoTraceKept(map[], Effects(INITIAL, es), c);
    }
  }

  lemma BatchOutcome(s: State, c: CallId)
    requires Inv(s) && c in s.calls && s.calls[c].op.Batch? && s.calls[c].pc.Done?
    ensures s.calls[c].pc.outcome == Success ==> DidRun(s, c)
    ensures s.calls[c].pc.outcome.Refused? ==> !DidRun(s, c)
    ensures s.calls[c].pc.outcome != InitializationFailed && !s.calls[c].pc.outcome.Unconfirmed?
    ensures !DidRun(INITIAL, c)
  {
    assert CallOk(s.calls[c], TxOf(s, c, 0), TxOf(s, c, 1));
    if TxId(c, 0) in s.txs {
      assert TxOk(s, TxId(c, 0), s.txs[TxId(c, 0)]);
    }
    hide Inv, WorkOk, Complete;
  }

  // -------------------------------------------------------------- a batch that is late

  predicate EndedFor(s: State, h: Handle) {
    h.id in s.db && (s.db[h.id].row.Some? ==> s.db[h.id].row.value.generation > h.generation)
  }

  /** The batch has looked its islet up, and since then the generation it saw has ended. */
  predicate Overtaken(s: State, c: CallId) {
    && c in s.calls && s.calls[c].op.Batch? && s.calls[c].pc != Start
    && EndedFor(s, s.calls[c].handle)
    && (TxOf(s, c, 0).None? || TxOf(s, c, 0).value.phase == Aborted)
  }

  lemma NewTransactionsRun(s: State, e: Event, t: TxId)
    requires Step(s, e).Some? && t in Step(s, e).value.txs
    ensures t !in s.txs ==> Step(s, e).value.txs[t].phase == Running
  {
  }

  lemma EndedStays(s: State, s': State, h: Handle)
    requires DbLater(s, s') && EndedFor(s, h)
    ensures EndedFor(s', h)
  {
    assert ViewLater(s.db[h.id], s'.db[h.id]);
  }

  /** A batch has no open transaction in a generation that has ended. */
  lemma EndedIsNotRunning(s: State, c: CallId)
    requires Inv(s) && c in s.calls && s.calls[c].op.Batch? && EndedFor(s, s.calls[c].handle) && TxOf(s, c, 0).Some?
    ensures !Live(TxOf(s, c, 0).value)
  {
    assert TxOk(s, TxId(c, 0), s.txs[TxId(c, 0)]);
    hide Inv, Complete;
  }

  lemma OvertakenStays(s: State, e: Event, c: CallId)
    requires Inv(s) && Step(s, e).Some? && Overtaken(s, c)
    ensures Overtaken(Step(s, e).value, c)
  {
    hide Inv, Step, EndedFor, RowLater;
    var s' := Step(s, e).value;
    var t := TxId(c, 0);
    StepKeeps(s, e);
    StepDbLater(s, e);
    StepTxsLater(s, e);
    StepCallsLater(s, e);
    assert CallLater(s.calls[c], s'.calls[c]);
    EndedStays(s, s', s.calls[c].handle);
    StaysStarted(s, e, c);
    if t in s'.txs {
      NewTransactionsRun(s, e, t);
      EndedIsNotRunning(s', c);
      assert t in s.txs ==> TxLater(s.txs[t], s'.txs[t]);
    }
  }

  lemma StaysStarted(s: State, e: Event, c: CallId)
    requires Step(s, e).Some? && c in s.calls && s.calls[c].pc != Start
    ensures c in Step(s, e).value.calls && Step(s, e).value.calls[c].pc != Start
  {
    if ManagesIslet(e) {
      hide Step;
      ManagesStarted(s, e, c);
    } else {
      hide DoLock, DoCheck, DoDrop, DoRebuild, DoRevert, DoUpdate, DoMake, Enter, Finish, Complete, LateMatches;
    }
  }

  lemma ManagesStarted(s: State, e: Event, c: CallId)
    requires Step(s, e).Some? && ManagesIslet(e) && c in s.calls && s.calls[c].pc != Start
    ensures c in Step(s, e).value.calls && Step(s, e).value.calls[c].pc != Start
  {
    hide Reach, MarkFailed, FreshRow;
  }

  lemma {:induction false} OvertakenForever(s: State, es: seq<Event>, c: CallId)
    requires Inv(s) && Steps(s, es).Some? && Overtaken(s, c)
    ensures Overtaken(Steps(s, es).value, c)
    decreases |es|
  {
    if es != [] {
      StepKeeps(s, es[0]);
      OvertakenStays(s, es[0], c);
      hide Inv, Overtaken, Step;
      OvertakenForever(Step(s, es[0]).value, es[1..], c);
    }
  }

  /** Fencing of the unlocked lookup: if the generation a batch has looked up ends before it
      gets through `enter`, then nothing of it is committed in whatever happens afterwards. */
  lemma OvertakenBatchNeverCommits(s: State, es: seq<Event>, c: CallId)
    requires Inv(s) && Steps(s, es).Some?
    requires c in s.calls && s.calls[c].op.Batch? && s.calls[c].pc.Looked?
    requires var v := At(s, s.calls[c].handle.id);
             v.row.None? || v.row.value.generation != s.calls[c].handle.generation
    ensures RansOf(Effects(s, es), c) == []
    ensures NoTrace(Published(s), c) ==> NoTrace(Published(Steps(s, es).value), c)
  {
    assert CallOk(s.calls[c], TxOf(s, c, 0), TxOf(s, c, 1)) && CallSeen(s, s.calls[c]);
    OvertakenForever(s, es, c);
    RunLater(s, es);
    var s' := Steps(s, es).value;
    assert CallLater(s.calls[c], s'.calls[c]);
    BatchHasOneStage(s', c);
    BatchRunsOnce(s, es, c);
    RunRefines(s, es);
    hide Inv, Steps, Effects, Published, BatchOperation;
    if NoTrace(Published(s), c) {
      NoTraceKept(Published(s), Effects(s, es), c);
    }
  }

  lemma BatchHasOneStage(s: State, c: CallId)
    requires Inv(s) && c in s.calls && s.calls[c].op.Batch?
    ensures TxOf(s, c, 1).None?
  {
    if TxId(c, 1) in s.txs {
      assert false;
    }
  }
}
