/** Every step keeps the invariant: one lemma for each kind of change a step makes, then
    one for each event that needs more than that. */
module ProtocolSteps {
  import opened Wrappers
  import opened Gateway
  import opened Protocol
  import opened ProtocolInvariant

  // ------------------------------------------------------------- the kinds of change

  /** A transaction the step does not touch. */
  lemma TxFrame(s: State, s': State, t: TxId, tx: Tx)
    requires TxOk(s, t, tx)
    requires t.call in s'.calls && s'.calls[t.call].op == s.calls[t.call].op
    requires s'.calls[t.call].handle == s.calls[t.call].handle && s'.calls[t.call].next == s.calls[t.call].next
    requires s.ids <= s'.ids
    requires Live(tx) ==> tx.id in s'.locks && s'.locks[tx.id] == t && At(s', tx.id) == At(s, tx.id)
                          && (tx.id in s'.db ==> tx.id in s.db)
    requires forall g :: Seen(s, tx.id, g) ==> Seen(s', tx.id, g)
    ensures TxOk(s', t, tx)
  {
    hide WorkOk, Belongs, Complete, At, Seen, Leaves;
  }

  /** The end of a transaction agrees with every call. */
  lemma EndCalls(s: State, t: TxId, phase: Phase)
    requires CallsOk(s) && t in s.txs
    requires (phase == Aborted && Live(s.txs[t])) || (phase == Committed && s.txs[t].phase == CommitSent)
    ensures var s' := PutTx(s, t, s.txs[t].(phase := phase));
            forall c <- s.calls :: CallOk(s.calls[c], TxOf(s', c, 0), TxOf(s', c, 1))
  {
    var s' := PutTx(s, t, s.txs[t].(phase := phase));
    forall c <- s.calls ensures CallOk(s.calls[c], TxOf(s', c, 0), TxOf(s', c, 1)) {
      assert CallOk(s.calls[c], TxOf(s, c, 0), TxOf(s, c, 1));
    }
  }

  /** Only the call changes. */
  lemma CallChange(s: State, c: CallId, call: Call)
    requires Inv(s) && c in s.calls
    requires call.op == s.calls[c].op && call.handle == s.calls[c].handle
    requires call.next == s.calls[c].next || (TxOf(s, c, 1).None? && !call.op.CreateIslet?)
    requires CallOk(call, TxOf(s, c, 0), TxOf(s, c, 1)) && CallSeen(s, call)
    ensures Inv(s.(calls := s.calls[c := call]))
  {
    hide WorkOk, CallOk;
    var s' := s.(calls := s.calls[c := call]);
    forall t <- s'.txs ensures TxOk(s', t, s'.txs[t]) {
      assert TxOk(s, t, s.txs[t]);
      if t.call == c && t.stage == 1 {
        assert t == TxId(c, 1);
      }
    }
    forall d <- s'.calls ensures CallOk(s'.calls[d], TxOf(s', d, 0), TxOf(s', d, 1)) && CallSeen(s', s'.calls[d]) {
      assert d != c ==> CallOk(s.calls[d], TxOf(s, d, 0), TxOf(s, d, 1)) && CallSeen(s, s.calls[d]);
    }
  }

  /** A held transaction works on its own copy, or is sent to commit. */
  lemma TxChange(s: State, t: TxId, tx: Tx, pc: Pc)
    requires Inv(s) && t in s.txs && Live(s.txs[t]) && Live(tx)
    requires tx.id == s.txs[t].id && tx.work.Create? == s.txs[t].work.Create?
    requires t.call in s.calls && BelongsTo(s.calls[t.call], t, tx)
    requires WorkOk(t.call, tx, At(s, tx.id))
    requires tx.phase == CommitSent ==> Complete(t, tx.work)
    requires var s' := SetPc(PutTx(s, t, tx), t.call, pc);
             CallOk(s'.calls[t.call], TxOf(s', t.call, 0), TxOf(s', t.call, 1)) && CallSeen(s', s'.calls[t.call])
    ensures Inv(SetPc(PutTx(s, t, tx), t.call, pc))
  {
    hide WorkOk, Belongs, CallOk, Complete;
    var s' := SetPc(PutTx(s, t, tx), t.call, pc);
    forall u <- s'.txs ensures TxOk(s', u, s'.txs[u]) {
      if u != t {
        assert TxOk(s, u, s.txs[u]);
      } else {
        assert TxOk(s, t, s.txs[t]);
      }
    }
    forall d <- s'.calls ensures CallOk(s'.calls[d], TxOf(s', d, 0), TxOf(s', d, 1)) && CallSeen(s', s'.calls[d]) {
      assert d != t.call ==> CallOk(s.calls[d], TxOf(s, d, 0), TxOf(s, d, 1)) && CallSeen(s, s.calls[d]);
    }
    forall id <- s'.locks ensures LockOk(s', id, s'.locks[id]) {
      assert LockOk(s, id, s.locks[id]);
    }
  }

  /** A transaction may begin, with a lock nobody holds. */
  predicate MayBegin(s: State, t: TxId, tx: Tx) {
    && t !in s.txs && t.call in s.calls && !s.calls[t.call].posted
    && tx.phase == Running && tx.id !in s.locks && tx.id in s.ids
    && BelongsTo(s.calls[t.call], t, tx)
    && (tx.work.Create? ==> tx.id !in s.db)
    && WorkOk(t.call, tx, At(s, tx.id))
    && (t.stage == 0 || t.stage == 1)
    && (t.stage == 0 ==> TxOf(s, t.call, 1).None?)
    && (t.stage == 1 ==>
          && Prepared(s.calls[t.call].op, TxOf(s, t.call, 0))
          && Seen(s, s.calls[t.call].next.id, s.calls[t.call].next.generation))
  }

  lemma BeginTxs(s: State, t: TxId, tx: Tx)
    requires TxsOk(s) && MayBegin(s, t, tx)
    ensures TxsOk(Begin(s, t, tx))
  {
    hide WorkOk, Belongs, Complete;
    var s' := Begin(s, t, tx);
    forall u <- s'.txs ensures TxOk(s', u, s'.txs[u]) {
      if u != t {
        assert TxOk(s, u, s.txs[u]);
        TxFrame(s, s', u, s.txs[u]);
      }
    }
  }

  lemma BeginCalls(s: State, t: TxId, tx: Tx)
    requires CallsOk(s) && MayBegin(s, t, tx)
    ensures CallsOk(Begin(s, t, tx))
  {
    var s' := Begin(s, t, tx);
    assert CallOk(s'.calls[t.call], TxOf(s', t.call, 0), TxOf(s', t.call, 1));
    hide CallOk, WorkOk, Belongs;
    forall d <- s'.calls ensures CallOk(s'.calls[d], TxOf(s', d, 0), TxOf(s', d, 1)) && CallSeen(s', s'.calls[d]) {
      assert d != t.call ==> CallOk(s.calls[d], TxOf(s, d, 0), TxOf(s, d, 1)) && CallSeen(s, s.calls[d]);
    }
  }

  lemma BeginChange(s: State, t: TxId, tx: Tx)
    requires Inv(s) && MayBegin(s, t, tx)
    ensures Inv(Begin(s, t, tx))
  {
    BeginTxs(s, t, tx);
    BeginCalls(s, t, tx);
    hide TxsOk, CallsOk, WorkOk, Belongs;
    var s' := Begin(s, t, tx);
    forall id <- s'.locks ensures LockOk(s', id, s'.locks[id]) {
      assert id != tx.id ==> LockOk(s, id, s.locks[id]);
    }
  }

  /** What a complete transaction is about to commit is a well-formed islet, and no older. */
  lemma CommitOk(s: State, t: TxId)
    requires Inv(s) && t in s.txs && s.txs[t].phase == CommitSent
    ensures IsletOk(s.txs[t].view)
    ensures Seen(s.(db := s.db[s.txs[t].id := s.txs[t].view]), s.txs[t].id, Leaves(s.txs[t].work))
    ensures forall id, g :: Seen(s, id, g) ==> Seen(s.(db := s.db[s.txs[t].id := s.txs[t].view]), id, g)
  {
    var tx := s.txs[t];
    assert TxOk(s, t, tx);
    if tx.work.Run? {
      assert tx.work.sql[..tx.work.next] == tx.work.sql;
    }
  }

  /** `s'` is `s` after the transaction `t` has ended and given back its lock. */
  predicate Ended(s: State, s': State, t: TxId) {
    && t in s.txs && Live(s.txs[t])
    && s'.locks == s.locks - {s.txs[t].id}
    && s'.calls == s.calls && s'.ids == s.ids
    && ((s'.db == s.db && s'.txs == s.txs[t := s.txs[t].(phase := Aborted)])
        || (s.txs[t].phase == CommitSent
            && s'.db == s.db[s.txs[t].id := s.txs[t].view] && s'.txs == s.txs[t := s.txs[t].(phase := Committed)]))
  }

  lemma SeenEnd(s: State, s': State, t: TxId)
    requires Inv(s) && Ended(s, s', t)
    ensures forall id, g :: Seen(s, id, g) ==> Seen(s', id, g)
    ensures s'.txs[t].phase == Committed ==> Seen(s', s.txs[t].id, Leaves(s.txs[t].work))
  {
    if s.txs[t].phase == CommitSent {
      CommitOk(s, t);
    }
  }

  lemma TxsEnd(s: State, s': State, t: TxId)
    requires Inv(s) && Ended(s, s', t)
    ensures TxsOk(s')
  {
    SeenEnd(s, s', t);
    assert TxOk(s, t, s.txs[t]);
    hide WorkOk, Belongs, Complete, Leaves, Seen, CallsOk, DbOk, LocksOk;
    assert TxOk(s', t, s'.txs[t]);
    forall u <- s'.txs ensures TxOk(s', u, s'.txs[u]) {
      if u != t {
        assert TxOk(s, u, s.txs[u]);
        hide TxOk;
        OtherEnd(s, s', t, u);
      }
    }
  }

  lemma OtherEnd(s: State, s': State, t: TxId, u: TxId)
    requires Ended(s, s', t) && u != t && u in s.txs && TxOk(s, u, s.txs[u]) && TxOk(s, t, s.txs[t])
    requires forall id, g :: Seen(s, id, g) ==> Seen(s', id, g)
    ensures TxOk(s', u, s.txs[u])
  {
    hide WorkOk, Belongs, Complete, Leaves, Seen;
    TxFrame(s, s', u, s.txs[u]);
  }

  lemma CallsEnd(s: State, s': State, t: TxId)
    requires Inv(s) && Ended(s, s', t)
    ensures CallsOk(s')
  {
    hide CallOk, Seen, TxsOk, DbOk, LocksOk;
    SeenEnd(s, s', t);
    EndCalls(s, t, s'.txs[t].phase);
    var p := PutTx(s, t, s'.txs[t]);
    assert s'.calls == s.calls && s'.txs == p.txs;
    hide Ended, PutTx;
    assert forall c :: TxOf(s', c, 0) == TxOf(p, c, 0) && TxOf(s', c, 1) == TxOf(p, c, 1);
    hide TxOf;
    forall c <- s'.calls ensures CallSeen(s', s'.calls[c]) {
      assert CallSeen(s, s.calls[c]);
    }
  }

  lemma LocksEnd(s: State, s': State, t: TxId)
    requires LocksOk(s) && Ended(s, s', t)
    ensures LocksOk(s')
  {
    forall i <- s'.locks ensures LockOk(s', i, s'.locks[i]) {
      assert LockOk(s, i, s.locks[i]);
    }
  }

  lemma EndChange(s: State, s': State, t: TxId)
    requires Inv(s) && Ended(s, s', t)
    ensures Inv(s')
  {
    TxsEnd(s, s', t);
    CallsEnd(s, s', t);
    LocksEnd(s, s', t);
    DbEnd(s, s', t);
    hide DbOk, TxsOk, LocksOk, CallsOk;
  }

  lemma DbEnd(s: State, s': State, t: TxId)
    requires Inv(s) && Ended(s, s', t)
    ensures DbOk(s')
  {
    if s'.txs[t].phase == Committed {
      CommitOk(s, t);
      assert TxOk(s, t, s.txs[t]);
    }
    hide IsletOk, LocksOk, CallsOk;
  }

  // ---------------------------------------------------------------- steps of a batch

  lemma LookupKeeps(s: State, c: CallId)
    requires Inv(s) && DoLookup(s, c).Some?
    ensures Inv(DoLookup(s, c).value)
  {
    hide TxOk, LockOk;
    CallChange(s, c, DoLookup(s, c).value.calls[c]);
  }

  lemma EnterKeeps(s: State, c: CallId)
    requires Inv(s) && DoEnter(s, c).Some?
    ensures Inv(DoEnter(s, c).value)
  {
    var call := s.calls[c];
    var h := Target(call);
    var v := At(s, h.id);
    EnterExact(v.row, h.id in s.locks, call.pc.generation, call.pc.token);
    if Enter(v.row, h.id in s.locks, call.pc.generation, call.pc.token).None? {
      var tx := Tx(h.id, Run(call.pc.generation, call.pc.token, call.op.sql, 0, false), v, v, Running);
      assert v.schema.value + Writes(c, call.pc.generation, call.op.sql[..0]) == v.schema.value;
      BeginChange(s, TxId(c, RunStage(call.op)), tx);
    } else {
      CallChange(s, c, DoEnter(s, c).value.calls[c]);
    }
  }

  /** The open transaction of a call works on its own copy. */
  lemma MoveKeeps(s: State, c: CallId, tx: Tx)
    requires Inv(s) && OpenTx(s, c).Some?
    requires var was := s.txs[OpenTx(s, c).value];
             && tx.id == was.id && tx.phase == Running && tx.work.Create? == was.work.Create?
             && BelongsTo(s.calls[c], OpenTx(s, c).value, tx)
             && WorkOk(c, tx, At(s, tx.id))
    ensures Inv(PutTx(s, OpenTx(s, c).value, tx))
  {
    hide WorkOk, Belongs;
    var t := OpenTx(s, c).value;
    assert SetPc(PutTx(s, t, tx), c, s.calls[c].pc) == PutTx(s, t, tx);
    TxChange(s, t, tx, s.calls[c].pc);
  }

  lemma ExecWork(author: CallId, tx: Tx, base: View, w: Write)
    requires WorkOk(author, tx, base) && tx.work.Run? && !tx.work.finished && tx.work.next < |tx.work.sql|
    requires w == Write(author, tx.work.generation, tx.work.sql[tx.work.next])
    ensures tx.view.schema.Some?
    ensures WorkOk(author, tx.(work := tx.work.(next := tx.work.next + 1),
                               view := tx.view.(schema := Some(tx.view.schema.value + [w]))), base)
  {
    var n, g := tx.work.next, tx.work.generation;
    assert Writes(author, g, tx.work.sql[..n + 1]) == Writes(author, g, tx.work.sql[..n]) + [w];
    assert base.schema.value + Writes(author, g, tx.work.sql[..n + 1])
        == base.schema.value + Writes(author, g, tx.work.sql[..n]) + [w];
  }

  lemma ExecKeeps(s: State, c: CallId)
    requires Inv(s) && DoExec(s, c).Some?
    ensures Inv(DoExec(s, c).value)
  {
    var t := OpenTx(s, c).value;
    var tx := s.txs[t];
    assert TxOk(s, t, tx);
    var w := Write(c, Target(s.calls[c]).generation, tx.work.sql[tx.work.next]);
    hide WorkOk;
    ExecWork(c, tx, At(s, tx.id), w);
    MoveKeeps(s, c, DoExec(s, c).value.txs[t]);
  }

  /** `finish` cannot fail: nothing has changed since `enter` let the batch in. */
  lemma FinishWork(author: CallId, tx: Tx, base: View)
    requires WorkOk(author, tx, base) && tx.work.Run? && !tx.work.finished
    requires tx.work.next == |tx.work.sql| && tx.work.token.Some?
    ensures var r := Finish(tx.view.row, tx.work.generation, tx.work.token);
            r.Ok? && WorkOk(author, tx.(work := tx.work.(finished := true), view := tx.view.(row := Some(r.value))),
                            base)
  {
    FinishExact(tx.view.row, tx.work.generation, tx.work.token);
  }

  lemma FinishKeeps(s: State, c: CallId)
    requires Inv(s) && DoFinish(s, c).Some?
    ensures Inv(DoFinish(s, c).value)
  {
    var t := OpenTx(s, c).value;
    var tx := s.txs[t];
    assert TxOk(s, t, tx);
    hide WorkOk;
    FinishWork(c, tx, At(s, tx.id));
    MoveKeeps(s, c, DoFinish(s, c).value.txs[t]);
  }

  // -------------------------------------------------------------- steps of a lifecycle

  lemma LockMayBegin(s: State, c: CallId)
    requires Inv(s) && DoLock(s, c).Some? && TxId(c, 0) in DoLock(s, c).value.txs
    ensures var s', t := DoLock(s, c).value, TxId(c, 0); MayBegin(s, t, s'.txs[t]) && s' == Begin(s, t, s'.txs[t])
  {
    var id := s.calls[c].handle.id;
    assert CallOk(s.calls[c], TxOf(s, c, 0), TxOf(s, c, 1));
    assert id in s.db ==> IsletOk(s.db[id]) && id in s.ids;
    hide Inv;
  }

  lemma LockFails(s: State, c: CallId)
    requires Inv(s) && DoLock(s, c).Some? && TxId(c, 0) !in DoLock(s, c).value.txs
    ensures Inv(DoLock(s, c).value)
  {
    var call := DoLock(s, c).value.calls[c];
    assert CallOk(s.calls[c], TxOf(s, c, 0), TxOf(s, c, 1));
    assert CallOk(call, TxOf(s, c, 0), TxOf(s, c, 1)) && CallSeen(s, call);
    hide Inv, CallOk, CallSeen;
    CallChange(s, c, call);
  }

  lemma LockKeeps(s: State, c: CallId)
    requires Inv(s) && DoLock(s, c).Some?
    ensures Inv(DoLock(s, c).value)
  {
    hide Inv, DoLock, MayBegin;
    var t := TxId(c, 0);
    if t in DoLock(s, c).value.txs {
      LockMayBegin(s, c);
      BeginChange(s, t, DoLock(s, c).value.txs[t]);
    } else {
      LockFails(s, c);
    }
  }

  lemma CheckKeeps(s: State, c: CallId, clear: bool)
    requires Inv(s) && DoCheck(s, c, clear).Some?
    ensures Inv(DoCheck(s, c, clear).value)
  {
    var t := OpenTx(s, c).value;
    assert TxOk(s, t, s.txs[t]);
    hide Inv;
    var tx := s.txs[t];
    if clear {
      MoveKeeps(s, c, Reach(tx, Checked, tx.view));
    } else {
      MoveKeeps(s, c, Reach(tx, Marked, MarkFailed(tx.view)));
    }
  }

  lemma DropKeeps(s: State, c: CallId)
    requires Inv(s) && DoDrop(s, c).Some?
    ensures Inv(DoDrop(s, c).value)
  {
    var t := OpenTx(s, c).value;
    assert TxOk(s, t, s.txs[t]);
    hide Inv;
    MoveKeeps(s, c, DoDrop(s, c).value.txs[t]);
  }

  lemma RebuildKeeps(s: State, c: CallId)
    requires Inv(s) && DoRebuild(s, c).Some?
    ensures Inv(DoRebuild(s, c).value)
  {
    var t := OpenTx(s, c).value;
    assert TxOk(s, t, s.txs[t]);
    hide Inv;
    MoveKeeps(s, c, DoRebuild(s, c).value.txs[t]);
  }

  lemma RevertKeeps(s: State, c: CallId)
    requires Inv(s) && DoRevert(s, c).Some?
    ensures Inv(DoRevert(s, c).value)
  {
    var t := OpenTx(s, c).value;
    assert TxOk(s, t, s.txs[t]);
    hide Inv;
    MoveKeeps(s, c, DoRevert(s, c).value.txs[t]);
  }

  lemma UpdateWork(author: CallId, tx: Tx, base: View, token: string)
    requires WorkOk(author, tx, base) && tx.work.Manage? && tx.work.stage == Cleaned
    ensures tx.work.action.Delete? ==>
              WorkOk(author, Reach(tx, Updated, tx.view.(row := None)), base)
    ensures tx.work.action.Reset? && tx.view.row.Some? ==>
              WorkOk(author, Reach(tx, Updated, tx.view.(row :=
                       Some(FreshRow(tx.work.action.initialize, tx.view.row.value.generation + 1, token)))), base)
  {
  }

  lemma UpdateKeeps(s: State, c: CallId, token: string)
    requires Inv(s) && DoUpdate(s, c, token).Some?
    ensures Inv(DoUpdate(s, c, token).value)
  {
    var t := OpenTx(s, c).value;
    assert TxOk(s, t, s.txs[t]);
    hide Inv, WorkOk;
    UpdateWork(c, s.txs[t], At(s, s.txs[t].id), token);
    MoveKeeps(s, c, DoUpdate(s, c, token).value.txs[t]);
  }

  /** A fresh identifier belongs to no islet, to no lock and to no transaction. */
  lemma DrawIdentifier(s: State, c: CallId, id: string)
    requires Inv(s) && c in s.calls && s.calls[c].pc == Start && id !in s.ids
    ensures id !in s.db && id !in s.locks
    ensures Inv(s.(ids := s.ids + {id}, calls := s.calls[c := s.calls[c].(next := Handle(id, 1))]))
  {
    hide WorkOk, Belongs, Complete;
    var s1 := s.(ids := s.ids + {id}, calls := s.calls[c := s.calls[c].(next := Handle(id, 1))]);
    assert CallOk(s.calls[c], TxOf(s, c, 0), TxOf(s, c, 1));
    forall t <- s1.txs ensures TxOk(s1, t, s1.txs[t]) {
      assert TxOk(s, t, s.txs[t]);
      StageOk(s, t);
      assert t.call != c;
    }
    forall d <- s1.calls ensures CallOk(s1.calls[d], TxOf(s1, d, 0), TxOf(s1, d, 1)) && CallSeen(s1, s1.calls[d]) {
      assert CallOk(s.calls[d], TxOf(s, d, 0), TxOf(s, d, 1)) && CallSeen(s, s.calls[d]);
    }
    forall i <- s1.locks ensures LockOk(s1, i, s1.locks[i]) && i != id {
      assert LockOk(s, i, s.locks[i]);
      assert TxOk(s, s.locks[i], s.txs[s.locks[i]]);
    }
  }

  /** A call has at most two transactions. */
  lemma StageOk(s: State, t: TxId)
    requires Inv(s) && t in s.txs
    ensures t == TxId(t.call, 0) || t == TxId(t.call, 1)
  {
    assert TxOk(s, t, s.txs[t]);
  }

  lemma MakeKeeps(s: State, c: CallId, id: string, token: string)
    requires Inv(s) && DoMake(s, c, id, token).Some?
    ensures Inv(DoMake(s, c, id, token).value)
  {
    var s' := DoMake(s, c, id, token).value;
    var call := s.calls[c].(next := Handle(id, 1));
    assert CallOk(s.calls[c], TxOf(s, c, 0), TxOf(s, c, 1));
    DrawIdentifier(s, c, id);
    var s1 := s.(ids := s.ids + {id}, calls := s.calls[c := call]);
    assert Begin(s1, TxId(c, 0), s'.txs[TxId(c, 0)]) == s';
    hide Inv;
    BeginChange(s1, TxId(c, 0), s'.txs[TxId(c, 0)]);
  }

  // -------------------------------------------------------------- commit and failures

  lemma SendKeeps(s: State, c: CallId)
    requires Inv(s) && DoSend(s, c).Some?
    ensures Inv(DoSend(s, c).value)
  {
    var t := TxId(c, s.calls[c].pc.stage);
    assert TxOk(s, t, s.txs[t]) && CallOk(s.calls[c], TxOf(s, c, 0), TxOf(s, c, 1)) && CallSeen(s, s.calls[c]);
    hide Inv, Belongs, WorkOk, Complete, OutcomeOk;
    if s.txs[t].phase == Running {
      TxChange(s, t, s.txs[t].(phase := CommitSent), Waiting(t.stage));
    } else {
      CallChange(s, c, s.calls[c].(pc := Waiting(t.stage)));
    }
  }

  lemma CommitKeeps(s: State, t: TxId)
    requires Inv(s) && DoCommit(s, t).Some?
    ensures Inv(DoCommit(s, t).value)
  {
    EndChange(s, DoCommit(s, t).value, t);
  }

  lemma AbortKeeps(s: State, t: TxId)
    requires Inv(s) && DoAbort(s, t).Some?
    ensures Inv(DoAbort(s, t).value)
  {
    EndChange(s, DoAbort(s, t).value, t);
  }

  /** What follows a reply, told from the call. */
  predicate Follows(s: State, c: CallId, call: Call)
    requires c in s.calls
  {
    && CallOk(call, TxOf(s, c, 0), TxOf(s, c, 1)) && CallSeen(s, call)
    && call.op == s.calls[c].op && call.handle == s.calls[c].handle
    && (call.next == s.calls[c].next || (TxOf(s, c, 1).None? && !call.op.CreateIslet?))
  }

  /** What follows a commit agrees with the transactions of the call. */
  lemma AfterCommitOk(s: State, c: CallId)
    requires Inv(s) && c in s.calls && s.calls[c].pc.Waiting?
    requires TxOf(s, c, s.calls[c].pc.stage).Some? && TxOf(s, c, s.calls[c].pc.stage).value.phase == Committed
    ensures var k := s.calls[c].pc.stage;
            var work := TxOf(s, c, k).value.work;
            Follows(s, c, AfterCommit(Committing(s.calls[c], work), k, work))
  {
    var t := TxId(c, s.calls[c].pc.stage);
    assert TxOk(s, t, s.txs[t]);
    assert CallOk(s.calls[c], TxOf(s, c, 0), TxOf(s, c, 1)) && CallSeen(s, s.calls[c]);
    hide Inv, WorkOk, Complete;
  }

  /** What follows a reply that is lost, or an error. */
  lemma NotCommittedOk(s: State, c: CallId, lost: bool)
    requires Inv(s) && DoReply(s, c, lost).Some? && (lost || TxOf(s, c, s.calls[c].pc.stage).value.phase != Committed)
    ensures c in DoReply(s, c, lost).value.calls && Follows(s, c, DoReply(s, c, lost).value.calls[c])
  {
    assert CallOk(s.calls[c], TxOf(s, c, 0), TxOf(s, c, 1)) && CallSeen(s, s.calls[c]);
    hide Inv, AfterCommit;
  }

  lemma ReplyOk(s: State, c: CallId, lost: bool)
    requires Inv(s) && DoReply(s, c, lost).Some?
    ensures c in s.calls && c in DoReply(s, c, lost).value.calls && Follows(s, c, DoReply(s, c, lost).value.calls[c])
    ensures DoReply(s, c, lost).value == s.(calls := s.calls[c := DoReply(s, c, lost).value.calls[c]])
  {
    hide Inv, AfterCommit, Committing, Failing, Follows;
    if !lost && TxOf(s, c, s.calls[c].pc.stage).value.phase == Committed {
      AfterCommitOk(s, c);
    } else {
      NotCommittedOk(s, c, lost);
    }
  }

  lemma ReplyKeeps(s: State, c: CallId, lost: bool)
    requires Inv(s) && DoReply(s, c, lost).Some?
    ensures Inv(DoReply(s, c, lost).value)
  {
    hide Inv, DoReply, CallOk, CallSeen;
    ReplyOk(s, c, lost);
    CallChange(s, c, DoReply(s, c, lost).value.calls[c]);
  }

  /** Marking an islet nobody holds as failed. */
  lemma MarkChange(s: State, id: string)
    requires Inv(s) && id in s.db && id !in s.locks
    ensures Inv(s.(db := s.db[id := MarkFailed(s.db[id])]))
  {
    hide WorkOk, Belongs, Complete, CallOk;
    var s' := s.(db := s.db[id := MarkFailed(s.db[id])]);
    forall t <- s'.txs ensures TxOk(s', t, s'.txs[t]) {
      assert TxOk(s, t, s.txs[t]);
    }
    forall d <- s'.calls ensures CallOk(s'.calls[d], TxOf(s', d, 0), TxOf(s', d, 1)) && CallSeen(s', s'.calls[d]) {
      assert CallOk(s.calls[d], TxOf(s, d, 0), TxOf(s, d, 1)) && CallSeen(s, s.calls[d]);
    }
    forall i <- s'.locks ensures LockOk(s', i, s'.locks[i]) {
      assert LockOk(s, i, s.locks[i]);
    }
  }

  lemma LateKeeps(s: State, c: CallId)
    requires Inv(s) && DoLate(s, c).Some?
    ensures Inv(DoLate(s, c).value)
  {
    var h := s.calls[c].next;
    hide Inv;
    if LateMatches(At(s, h.id), h.generation) {
      MarkChange(s, h.id);
    }
  }

  lemma PostKeeps(s: State, c: CallId)
    requires Inv(s) && DoPost(s, c).Some?
    ensures Inv(DoPost(s, c).value)
  {
    assert CallOk(s.calls[c], TxOf(s, c, 0), TxOf(s, c, 1)) && CallSeen(s, s.calls[c]);
    CallChange(s, c, s.calls[c].(posted := true));
  }

  lemma ReopenKeeps(s: State, c: CallId)
    requires Inv(s) && DoReopen(s, c).Some?
    ensures Inv(DoReopen(s, c).value)
  {
    assert CallOk(s.calls[c], TxOf(s, c, 0), TxOf(s, c, 1)) && CallSeen(s, s.calls[c]);
    assert s.(calls := s.calls[c := s.calls[c]]) == s;
    var call := DoReopen(s, c).value.calls[c];
    assert DoReopen(s, c).value == s.(calls := s.calls[c := call]);
    hide Inv, DoReopen;
    CallChange(s, c, call);
  }

  lemma FailKeeps(s: State, c: CallId, kind: ErrorKind)
    requires Inv(s) && DoGiveUp(s, c, kind).Some?
    ensures Inv(DoGiveUp(s, c, kind).value)
  {
    hide TxOk, LockOk;
    CallChange(s, c, DoGiveUp(s, c, kind).value.calls[c]);
  }

  lemma CrashKeeps(s: State, c: CallId)
    requires Inv(s) && DoCrash(s, c).Some?
    ensures Inv(DoCrash(s, c).value)
  {
    CallChange(s, c, DoCrash(s, c).value.calls[c]);
  }

  lemma InvokeKeeps(s: State, c: CallId, op: Op, handle: Handle)
    requires Inv(s) && DoInvoke(s, c, op, handle).Some?
    ensures Inv(DoInvoke(s, c, op, handle).value)
  {
    var s' := DoInvoke(s, c, op, handle).value;
    forall t <- s'.txs ensures TxOk(s', t, s'.txs[t]) && t.call != c {
      assert TxOk(s, t, s.txs[t]);
    }
    forall d <- s'.calls ensures CallOk(s'.calls[d], TxOf(s', d, 0), TxOf(s', d, 1)) && CallSeen(s', s'.calls[d]) {
      assert d != c ==> CallOk(s.calls[d], TxOf(s, d, 0), TxOf(s, d, 1)) && CallSeen(s, s.calls[d]);
    }
    forall i <- s'.locks ensures LockOk(s', i, s'.locks[i]) {
      assert LockOk(s, i, s.locks[i]);
    }
  }

  // --------------------------------------------------------------------------- runs

  /** One step, whichever it is. */
  lemma StepKeeps(s: State, e: Event)
    requires Inv(s) && Step(s, e).Some?
    ensures Inv(Step(s, e).value)
  {
    hide Inv, DoInvoke, DoLookup, DoEnter, DoExec, DoFinish, DoLock, DoCheck, DoDrop, DoRebuild, DoRevert,
         DoUpdate, DoMake, DoSend, DoCommit, DoAbort, DoReply, DoGiveUp, DoPost, DoLate, DoReopen, DoCrash;
    match e
    case Invoke(c, op, handle) => InvokeKeeps(s, c, op, handle);
    case Lookup(c) => LookupKeeps(s, c);
    case EnterGateway(c) => EnterKeeps(s, c);
    case Exec(c) => ExecKeeps(s, c);
    case FinishGateway(c) => FinishKeeps(s, c);
    case LockRow(c) => LockKeeps(s, c);
    case CheckDependencies(c, clear) => CheckKeeps(s, c, clear);
    case DropSchema(c) => DropKeeps(s, c);
    case Rebuild(c) => RebuildKeeps(s, c);
    case Revert(c) => RevertKeeps(s, c);
    case UpdateRow(c, token) => UpdateKeeps(s, c, token);
    case MakeIslet(c, id, token) => MakeKeeps(s, c, id, token);
    case Send(c) => SendKeeps(s, c);
    case ServerCommit(t) => CommitKeeps(s, t);
    case ServerAbort(t) => AbortKeeps(s, t);
    case Reply(c, lost) => ReplyKeeps(s, c, lost);
    case GiveUp(c, kind) => FailKeeps(s, c, kind);
    case PostLate(c) => PostKeeps(s, c);
    case LateUpdate(c) => LateKeeps(s, c);
    case Reopen(c) => ReopenKeeps(s, c);
    case Crash(c) => CrashKeeps(s, c);
  }

  /** Every state that any run reaches from the empty registry satisfies the invariant. */
  lemma {:induction false} Reachable(s: State, es: seq<Event>)
    requires Inv(s) && Steps(s, es).Some?
    ensures Inv(Steps(s, es).value)
    decreases |es|
  {
    if es != [] {
      StepKeeps(s, es[0]);
      Reachable(Step(s, es[0]).value, es[1..]);
    }
  }
}
