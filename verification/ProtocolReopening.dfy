/**
 Runs in which the read after a committed initialisation does not find what was initialised:
 another call deletes the islet, or resets it, in between.
 */
module ProtocolReopening {
  import opened Wrappers
  import opened Gateway
  import opened Protocol
  import opened ProtocolInvariant
  import opened ProtocolSteps
  import opened Serial
  import opened ProtocolHonesty
  import opened ProtocolOthers
  import opened ProtocolRecovery
  import opened ProtocolSuccess
  import opened ProtocolHandles

  // ------------------------------------------------------------------ what happens in between

  /** A run of one call and the server leaves the other calls where they are. */
  lemma {:induction false} OthersStay(s: State, es: seq<Event>, d: CallId, c: CallId)
    requires Steps(s, es).Some? && OnlyBy(es, d) && d != c && c in s.calls
    ensures c in Steps(s, es).value.calls && Steps(s, es).value.calls[c] == s.calls[c]
    decreases |es|
  {
    if es != [] {
      assert es[0] in es;
      OthersStep(s, es[0], c);
      assert forall e <- es[1..] :: e in es;
      hide Step;
      OthersStay(Step(s, es[0]).value, es[1..], d, c);
    }
  }

  lemma {:induction false} NoNewCalls(s: State, es: seq<Event>, c: CallId, d: CallId)
    requires Steps(s, es).Some? && OnlyBy(es, c) && d != c && d !in s.calls
    ensures d !in Steps(s, es).value.calls
    decreases |es|
  {
    if es != [] {
      assert es[0] in es;
      NotOfOthers(s, es[0], c, d);
      assert forall e <- es[1..] :: e in es;
      hide Step;
      NoNewCalls(Step(s, es[0]).value, es[1..], c, d);
    }
  }

  lemma NotOfOthers(s: State, e: Event, c: CallId, d: CallId)
    requires Step(s, e).Some? && (Client(e).None? || Client(e) == Some(c)) && d != c && d !in s.calls
    ensures d !in Step(s, e).value.calls
  {
    if !e.Invoke? {
      NoNewCall(s, e, d);
    }
  }

  lemma ReopenFinds(s: State, c: CallId)
    requires Inv(s) && c in s.calls && s.calls[c].pc == Reopening && HandleOk(s.calls[c])
    ensures Step(s, Reopen(c)).Some? && c in Step(s, Reopen(c)).value.calls
    ensures var call, call' := s.calls[c], Step(s, Reopen(c)).value.calls[c];
            && Step(s, Reopen(c)).value.db == s.db && call'.op == call.op
            && if call.next.id in Published(s) then
                 var row := Published(s)[call.next.id].row;
                 && call'.pc == Done(Success)
                 && call'.back == Some(Returned(Handle(call.next.id, row.generation), row.state))
               else call'.pc == Done(Unconfirmed(NotFound)) && call'.back == Some(Returned(call.next, Active))
  {
    assert s.calls[c].next.id in s.db ==> IsletOk(s.db[s.calls[c].next.id]);
    hide Inv, OutcomeOk, IsPast;
  }

  /** The last read of an initialising call, in any run: it succeeds exactly if the islet is there,
      with the handle of whatever generation that has. If that is a later one, nothing in the
      workspace is of the generation that was initialised. */
  lemma LastRead(run: seq<Event>, c: CallId)
    requires Steps(INITIAL, run).Some?
    requires var s := Steps(INITIAL, run).value; c in s.calls && s.calls[c].pc == Reopening
    ensures var s := Steps(INITIAL, run).value;
            && Step(s, Reopen(c)).Some? && c in Step(s, Reopen(c)).value.calls
            && var call, call' := s.calls[c], Step(s, Reopen(c)).value.calls[c];
               && (call'.pc == Done(Success) <==> MadeBy(call).id in Published(s))
               && (call'.pc == Done(Success) ==>
                     && call'.back.Some? && call'.back.value.handle.generation >= MadeBy(call).generation
                     && call'.back.value.handle.generation == Published(s)[MadeBy(call).id].row.generation
                     && call'.back.value.state == Published(s)[MadeBy(call).id].row.state
                     && (call'.back.value.handle.generation > MadeBy(call).generation ==>
                           forall w <- Published(s)[MadeBy(call).id].workspace ::
                               w.generation > MadeBy(call).generation))
               && (call'.pc != Done(Success) ==>
                     call'.pc == Done(Unconfirmed(NotFound)) && call'.back == Some(Returned(MadeBy(call), Active)))
  {
    var s := Steps(INITIAL, run).value;
    Reachable(INITIAL, run);
    HandleRun(INITIAL, run, c);
    hide Steps, Step;
    ReopenFinds(s, c);
    ReadsNoOlder(s, c);
    hide Inv, Published;
  }

  lemma ReadsNoOlder(s: State, c: CallId)
    requires Inv(s) && c in s.calls && s.calls[c].pc == Reopening
    ensures Initializes(s.calls[c].op)
    ensures var h := s.calls[c].next;
            h.id in Published(s) ==>
              && Published(s)[h.id].row.generation >= h.generation
              && forall w <- Published(s)[h.id].workspace :: w.generation == Published(s)[h.id].row.generation
  {
    assert CallOk(s.calls[c], TxOf(s, c, 0), TxOf(s, c, 1)) && CallSeen(s, s.calls[c]);
    assert DbOk(s);
    hide Inv, OutcomeOk;
  }

  /** An initialising call, another call on the same islet before the last read, then that read. */
  lemma Interleaves(sql: seq<string>, action: Action) returns (es: seq<Event>, run: seq<Event>)
    requires action == Delete || action == Reset(false, false)
    ensures Steps(INITIAL, run).Some? && es == run + [Reopen(0)] && Inv(Steps(INITIAL, run).value)
    ensures var s := Steps(INITIAL, run).value;
            && 0 in s.calls && s.calls[0].pc == Reopening && s.calls[0].op == CreateIslet(true, sql)
            && s.calls[0].next == Handle("a", 1) && HandleOk(s.calls[0])
            && if action.Delete? then "a" !in Published(s)
               else "a" in Published(s) && Published(s)["a"] == Islet(Row(Active, 2, None), [])
  {
    hide Inv, Step, Steps, OnlyBy, HandleOk, IsNew, Answered, Published, HasAnswer, INITIAL, IsPrepared;
    var first := CreatesAndInitialises(sql);
    var s1 := Steps(INITIAL, first).value;
    NoNewCalls(INITIAL, first, 0, 1) by { NothingYet(); }
    var op := Op.Lifecycle(action, []);
    AnswerIsFree(s1, sql, action);
    var second := FreeIsManaged(s1, 1, "a", op);
    var s2 := Steps(s1, second).value;
    OthersStay(s1, second, 1, 0);
    AnswerIsManaged(s1, s2, op);
    StepsJoin(INITIAL, first, second);
    run := first + second;
    HandleRun(INITIAL, run, 0) by { NothingYet(); }
    es := run + [Reopen(0)];
  }

  lemma NothingYet()
    ensures Inv(INITIAL) && INITIAL.calls == map[] && INITIAL.ids == {}
  {
  }

  lemma CreatesAndInitialises(sql: seq<string>) returns (es: seq<Event>)
    ensures Steps(INITIAL, es).Some? && OnlyBy(es, 0) && Inv(Steps(INITIAL, es).value)
    ensures HasInitialised(Steps(INITIAL, es).value, sql)
  {
    hide Inv, Step, Steps, OnlyBy, IsNew, HasAnswer, IsPrepared, Published, INITIAL, HasInitialised;
    NothingYet();
    es := CreationCommits(INITIAL, 0, CreateIslet(true, sql), "a", "t");
    var s1 := Steps(INITIAL, es).value;
    NewIsPrepared(INITIAL, s1, 0, "a");
    var rest := InitialisationCommits(s1, 0);
    AnswerHasInitialised(s1, Steps(s1, rest).value, sql);
    Joined(INITIAL, es, rest, 0);
    es := es + rest;
  }

  /** The batch of the initialisation has been answered. */
  predicate HasInitialised(s: State, sql: seq<string>) {
    && 0 in s.calls && s.calls[0].pc == Reopening && s.calls[0].op == CreateIslet(true, sql)
    && s.calls[0].next == Handle("a", 1) && "a" !in s.locks && At(s, "a").row == Some(Row(Active, 1, None))
  }

  lemma AnswerHasInitialised(base: State, s: State, sql: seq<string>)
    requires 0 in base.calls && base.calls[0].op == CreateIslet(true, sql) && base.calls[0].next == Handle("a", 1)
    requires HasAnswer(base, s, 0, base.calls[0].(pc := InTx(1)), 1)
    ensures HasInitialised(s, sql)
  {
  }

  lemma AnswerIsFree(s: State, sql: seq<string>, action: Action)
    requires HasInitialised(s, sql) && (action == Delete || action == Reset(false, false))
    ensures Free(s, "a") && At(s, "a").row == Some(Row(Active, 1, None)) && MayManage(At(s, "a").row.value, action)
    ensures 0 in s.calls && s.calls[0].pc == Reopening && s.calls[0].op == CreateIslet(true, sql)
            && s.calls[0].next == Handle("a", 1)
  {
  }

  lemma AnswerIsManaged(s: State, s': State, op: Op)
    requires op.Lifecycle? && (op.action == Delete || op.action == Reset(false, false))
    requires Inv(s) && At(s, "a").row == Some(Row(Active, 1, None)) && Answered(s, s', 1, op, Handle("a", 1))
    ensures if op.action.Delete? then "a" !in Published(s')
            else "a" in Published(s') && Published(s')["a"] == Islet(Row(Active, 2, None), [])
  {
    assert IsletOk(s.db["a"]);
    hide Inv;
    assert "a" in Published(s) && Published(s)["a"].row.generation == 1;
  }

  lemma {:induction false} StepsJoin(s: State, es: seq<Event>, fs: seq<Event>)
    requires Steps(s, es).Some?
    ensures Steps(s, es + fs) == Steps(Steps(s, es).value, fs)
    decreases |es|
  {
    hide Step;
    if es == [] {
      assert es + fs == fs;
    } else {
      assert (es + fs)[0] == es[0] && (es + fs)[1..] == es[1..] + fs;
      StepsJoin(Step(s, es[0]).value, es[1..], fs);
    }
  }

  lemma ReopensLast(s: State, es: seq<Event>, c: CallId)
    requires Steps(s, es).Some? && Step(Steps(s, es).value, Reopen(c)).Some?
    ensures Steps(s, es + [Reopen(c)]) == Step(Steps(s, es).value, Reopen(c))
  {
    hide Step;
    StepsJoin(s, es, [Reopen(c)]);
    assert [Reopen(c)][1..] == [];
  }

  /** A call that is told NotFound although all it was asked to do has been committed: another
      call deletes the islet before the last read. */
  lemma CommittedButNotFound(sql: seq<string>) returns (es: seq<Event>)
    ensures Steps(INITIAL, es).Some? && 0 in Steps(INITIAL, es).value.calls
    ensures var call, done := Steps(INITIAL, es).value.calls[0], DoneBy(INITIAL, es, 0);
            && call.pc == Done(Unconfirmed(NotFound)) && call.back == Some(Returned(Handle("a", 1), Active))
            && |done| == 2 && done[0].Created? && done[1].Ran?
  {
    var run;
    es, run := Interleaves(sql, Delete);
    hide Inv, Step, Steps, HandleOk, DoneBy, Published, Initializes, INITIAL;
    ReopenFinds(Steps(INITIAL, run).value, 0);
    ReopensLast(INITIAL, run, 0);
    CreationIsDone(es, 0);
  }

  lemma CreationIsDone(es: seq<Event>, c: CallId)
    requires Steps(INITIAL, es).Some? && c in Steps(INITIAL, es).value.calls
    requires var call := Steps(INITIAL, es).value.calls[c];
             call.op.CreateIslet? && call.pc.Done? && call.pc.outcome.Unconfirmed?
    ensures var done := DoneBy(INITIAL, es, c); |done| == 2 && done[0].Created? && done[1].Ran?
  {
    LifecycleOutcomesAreHonest(es, c);
    hide Steps, DoneBy;
    var call, done := Steps(INITIAL, es).value.calls[c], DoneBy(INITIAL, es, c);
    assert |done| == 2;
    assert AskedFor(c, call, done[0]);
  }

  /** A call that succeeds with the handle of a generation it has not made: another call resets
      the islet before the last read, and the workspace the handle opens is empty. */
  lemma LaterGenerationReturned(sql: seq<string>) returns (es: seq<Event>)
    ensures Steps(INITIAL, es).Some? && 0 in Steps(INITIAL, es).value.calls
    ensures var s := Steps(INITIAL, es).value;
            && s.calls[0].pc == Done(Success) && s.calls[0].back == Some(Returned(Handle("a", 2), Active))
            && "a" in Published(s) && Published(s)["a"].workspace == []
  {
    var run;
    es, run := Interleaves(sql, Reset(false, false));
    var s := Steps(INITIAL, run).value;
    ReopenFinds(s, 0);
    SamePublished(s, Step(s, Reopen(0)).value);
    hide Inv, Step, Steps, HandleOk, Published;
    ReopensLast(INITIAL, run, 0);
  }
}
