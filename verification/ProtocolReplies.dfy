/** What a call makes of the answers it gets: to a commit, to an error, to nothing at all; and what the
    late update does. */
module ProtocolReplies {
  import opened Wrappers
  import opened Gateway
  import opened Protocol
  import opened ProtocolInvariant
  import opened Serial

  /** A call that goes on to an initialisation. */
  predicate GoesOn(op: Op) {
    match op
    case Batch(_) => false
    case CreateIslet(initialize, _) => initialize
    case Lifecycle(action, _) => action.Reset? && action.initialize
  }

  /** The transaction has only marked the row. */
  predicate OnlyMarks(tx: Tx) {
    tx.work.Manage? && tx.work.stage == Marked
  }

  /** An answer to a commit comes exactly if the server has ended the transaction, and tells which
      way. A batch succeeds exactly if it has been committed; a lifecycle call, exactly if that was
      more than the marking of a row and nothing is left to do; and a batch of an initialisation
      that has not been committed leaves the late update to be sent. */
  lemma ReplyDecides(s: State, c: CallId)
    requires Inv(s) && c in s.calls && s.calls[c].pc.Waiting?
    ensures TxOf(s, c, s.calls[c].pc.stage).Some?
    ensures var tx, s' := TxOf(s, c, s.calls[c].pc.stage).value, Step(s, Reply(c, false));
            && (s'.Some? <==> tx.phase == Committed || tx.phase == Aborted)
            && (s'.Some? ==>
                  && c in s'.value.calls && s'.value.db == s.db && s'.value.locks == s.locks && s'.value.txs == s.txs
                  && AnswersTo(s.calls[c], tx, s'.value.calls[c]))
  {
    var k := s.calls[c].pc.stage;
    assert CallOk(s.calls[c], TxOf(s, c, 0), TxOf(s, c, 1));
    assert TxOk(s, TxId(c, k), s.txs[TxId(c, k)]);
    assert Step(s, Reply(c, false)) == DoReply(s, c, false);
    hide Inv, WorkOk, Complete, OutcomeOk, Step, CallOk;
    var call, tx := s.calls[c], s.txs[TxId(c, k)];
    assert Belongs(call.op, call.handle, call.next, TxId(c, k), tx.id, tx.work);
    AnswerDecides(s.calls[c], TxId(c, k), s.txs[TxId(c, k)]);
    hide Belongs, Replying, Committing, AnswersTo, TxOk;
  }

  /** Where a call goes with an answer. */
  predicate AnswersTo(call: Call, tx: Tx, call': Call)
    requires call.pc.Waiting?
  {
    var pc := call'.pc;
    && call'.op == call.op && call'.handle == call.handle
    && call'.next == (if call.op.Lifecycle? && call.op.action.Reset? && (pc == Initialize || pc == Done(Success))
                      then Handle(call.handle.id, call.handle.generation + 1)
                      else call.next)
    && (call.op.Batch? ==>
          && (pc == Done(Success) <==> tx.phase == Committed)
          && (pc == Done(Refused(Query)) <==> tx.phase == Aborted))
    && (!call.op.Batch? && call.pc == Waiting(0) ==>
          && (pc == Done(Success) <==> tx.phase == Committed && !OnlyMarks(tx) && !GoesOn(call.op))
          && (pc == Initialize <==> tx.phase == Committed && !OnlyMarks(tx) && GoesOn(call.op))
          && (pc == Done(Refused(ErrorKind.Lifecycle)) <==> OnlyMarks(tx))
          && (pc == Done(Refused(Query)) <==> tx.phase == Aborted && !OnlyMarks(tx)))
    && (call.pc == Waiting(1) ==>
          && (pc == Reopening <==> tx.phase == Committed)
          && (pc == Late <==> tx.phase == Aborted))
  }

  lemma AnswerDecides(call: Call, t: TxId, tx: Tx)
    requires call.pc == Waiting(t.stage) && t.stage <= 1
    requires Belongs(call.op, call.handle, call.next, t, tx.id, tx.work)
    ensures var call' := Replying(Committing(call, tx.work), t.stage, tx, false);
            && (call'.Some? <==> tx.phase == Committed || tx.phase == Aborted)
            && (call'.Some? ==> AnswersTo(call, tx, call'.value))
  {
  }

  /** A reply can be lost at any moment, whatever the server has done: then the outcome is unknown, or
      the late update is to be sent. */
  lemma LostReplyDecides(s: State, c: CallId)
    requires Inv(s) && c in s.calls && s.calls[c].pc.Waiting?
    ensures var s' := Step(s, Reply(c, true));
            && s'.Some? && s'.value.db == s.db && s'.value.txs == s.txs && c in s'.value.calls
            && s'.value.calls[c].op == s.calls[c].op && s'.value.calls[c].handle == s.calls[c].handle
            && s'.value.calls[c].next == s.calls[c].next
            && s'.value.calls[c].pc == if s.calls[c].pc == Waiting(0) then Done(Unknown) else Late
  {
    assert CallOk(s.calls[c], TxOf(s, c, 0), TxOf(s, c, 1));
    hide Inv, OutcomeOk;
  }

  /** Before the end of a call, outside a commit, an error can come at any moment: it is that of a batch
      or of a lifecycle transaction; in the initialisation it leaves the late update to be sent; and
      after that, or in the last read, it ends the call. */
  lemma ErrorDecides(s: State, c: CallId, kind: ErrorKind)
    requires Inv(s) && c in s.calls
    ensures var s' := Step(s, GiveUp(c, kind));
            && (s'.Some? <==> !s.calls[c].pc.Waiting? && !s.calls[c].pc.Done?)
            && (s'.Some? ==>
                  && s'.value.db == s.db && s'.value.locks == s.locks && s'.value.txs == s.txs
                  && c in s'.value.calls && LeadsTo(s.calls[c], kind, s'.value.calls[c].pc))
  {
    StageIsOne(s, c);
    assert Step(s, GiveUp(c, kind)) == DoGiveUp(s, c, kind);
    hide Inv, Step, LeadsTo, Failing;
    if !s.calls[c].pc.Waiting? && !s.calls[c].pc.Done? {
      ErrorEnds(s.calls[c], kind);
    }
  }

  /** Where a call goes with an error. */
  predicate LeadsTo(call: Call, kind: ErrorKind, pc: Pc) {
    && (pc == Done(Refused(kind)) <==>
          call.pc == Start || call.pc == InTx(0) || (call.pc.Looked? && call.op.Batch?))
    && (pc == Late <==>
          call.pc == Initialize || call.pc == InTx(1) || (call.pc.Looked? && !call.op.Batch?))
    && (pc == Done(InitializationFailed) <==> call.pc == Late)
    && (pc == Done(Unconfirmed(kind)) <==> call.pc == Reopening)
  }

  lemma StageIsOne(s: State, c: CallId)
    requires Inv(s) && c in s.calls
    ensures s.calls[c].pc.InTx? ==> s.calls[c].pc.stage <= 1
  {
    assert CallOk(s.calls[c], TxOf(s, c, 0), TxOf(s, c, 1));
    hide Inv, OutcomeOk;
  }

  lemma ErrorEnds(call: Call, kind: ErrorKind)
    requires !call.pc.Waiting? && !call.pc.Done? && (call.pc.InTx? ==> call.pc.stage <= 1)
    ensures LeadsTo(call, kind, Failing(call, kind))
  {
  }

  /** A caller can go away at any moment, and the server can end any open transaction. */
  lemma AnyoneMayStop(s: State, c: CallId, t: TxId)
    ensures c in s.calls && !s.calls[c].pc.Done? ==>
              && Step(s, Crash(c)).Some? && c in Step(s, Crash(c)).value.calls
              && Step(s, Crash(c)).value.calls[c].pc == Done(Crashed)
    ensures t in s.txs && (s.txs[t].phase == Running || s.txs[t].phase == CommitSent) ==>
              && Step(s, ServerAbort(t)).Some? && t in Step(s, ServerAbort(t)).value.txs
              && Step(s, ServerAbort(t)).value.txs[t].phase == Aborted && Step(s, ServerAbort(t)).value.db == s.db
              && s.txs[t].id !in Step(s, ServerAbort(t)).value.locks
  {
  }

  /** The lookup of an initialisation goes on exactly if the generation is still there, with the token
      that the row has. */
  lemma InitialLookupDecides(s: State, c: CallId)
    requires Inv(s) && c in s.calls && s.calls[c].pc == Initialize
    ensures Step(s, Lookup(c)).Some? && c in Step(s, Lookup(c)).value.calls
    ensures var h, pc := s.calls[c].next, Step(s, Lookup(c)).value.calls[c].pc;
            var row := At(s, h.id).row;
            && (row.Some? && row.value.generation == h.generation ==>
                  pc == Looked(h.generation, Some(if row.value.token.Some? then row.value.token.value else "")))
            && (row.None? || row.value.generation != h.generation ==> pc == Late)
  {
    assert CallOk(s.calls[c], TxOf(s, c, 0), TxOf(s, c, 1));
    hide Inv, OutcomeOk;
  }

  /** The late update: it can be sent by every call that owes it, and applied as soon as nobody holds the
      islet. A row that is still initializing at the generation in question is failed then, and its
      token gone; otherwise nothing changes. */
  lemma LateUpdateDecides(s: State, c: CallId)
    requires Inv(s) && c in s.calls && s.calls[c].pc == Late && s.calls[c].next.id !in s.locks
    ensures Step(s, PostLate(c)).Some?
    ensures Step(Step(s, PostLate(c)).value, LateUpdate(c)).Some?
    ensures var h, r := s.calls[c].next, Published(s);
            var r' := Published(Step(Step(s, PostLate(c)).value, LateUpdate(c)).value);
            r' == if h.id in r && r[h.id].row.state == Initializing && r[h.id].row.generation == h.generation
                  then r[h.id := Islet(Row(Failed, h.generation, None), [])]
                  else r
  {
    hide Inv, Step;
    var s1 := DoPost(s, c).value;
    PostIs(s, s1, c);
    PostedIsApplied(s, c);
  }

  lemma PostIs(s: State, s1: State, c: CallId)
    ensures Step(s, PostLate(c)) == DoPost(s, c) && Step(s1, LateUpdate(c)) == DoLate(s1, c)
  {
    hide DoPost, DoLate;
  }

  lemma PostedIsApplied(s: State, c: CallId)
    requires Inv(s) && c in s.calls && s.calls[c].pc == Late && s.calls[c].next.id !in s.locks
    ensures DoPost(s, c).Some? && DoLate(DoPost(s, c).value, c).Some?
    ensures var h, r := s.calls[c].next, Published(s);
            Published(DoLate(DoPost(s, c).value, c).value) ==
            if h.id in r && r[h.id].row.state == Initializing && r[h.id].row.generation == h.generation
            then r[h.id := Islet(Row(Failed, h.generation, None), [])]
            else r
  {
    assert s.calls[c].next.id in s.db ==> IsletOk(s.db[s.calls[c].next.id]);
    hide Inv;
    var s1 := DoPost(s, c).value;
    assert s1.db == s.db && s1.calls[c].next == s.calls[c].next && DoLate(s1, c).Some?;
    assert Published(s1) == Published(s);
    hide Published, DoLate, DoPost, IsletOk;
    LateRow(s1, c);
  }

  lemma LateRow(s: State, c: CallId)
    requires c in s.calls && DoLate(s, c).Some? && (s.calls[c].next.id in s.db ==> IsletOk(s.db[s.calls[c].next.id]))
    ensures var h, r := s.calls[c].next, Published(s);
            Published(DoLate(s, c).value) ==
            if h.id in r && r[h.id].row.state == Initializing && r[h.id].row.generation == h.generation
            then r[h.id := Islet(Row(Failed, h.generation, None), [])]
            else r
  {
  }
}
