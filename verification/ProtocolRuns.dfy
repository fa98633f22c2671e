/** What holds over whole runs: what never goes back, fencing, late failure, honest outcomes. */
module ProtocolRuns {
  import opened Wrappers
  import opened Gateway
  import opened Protocol
  import opened ProtocolInvariant
  import opened ProtocolSteps
  import opened Serial

  // ------------------------------------------------------------- what never goes back

  function Rank(state: Status): nat {
    match state
    case Initializing => 0
    case Active => 1
    case Failed => 2
    case Deleting => 3
  }

  /** A registry row and the row it has become some steps later. */
  predicate RowLater(row: Row, row': Row) {
    || row.generation < row'.generation
    || (&& row.generation == row'.generation
        && Rank(row.state) <= Rank(row'.state)
        && (Rank(row.state) == Rank(row'.state) ==> row' == row)
        && (row'.token == row.token || row'.token.None?))
  }

  /** An islet that has been deleted stays deleted. */
  predicate ViewLater(v: View, v': View) {
    v'.row.Some? ==> v.row.Some? && RowLater(v.row.value, v'.row.value)
  }

  /** A transaction that is over, and a call that is over, do not change any more. */
  predicate TxLater(tx: Tx, tx': Tx) {
    Live(tx) || tx' == tx
  }

  predicate CallLater(call: Call, call': Call) {
    call'.op == call.op && call'.handle == call.handle && (call.pc.Done? ==> call' == call)
  }

  ghost predicate DbLater(s: State, s': State) {
    forall id <- s.db :: id in s'.db && ViewLater(s.db[id], s'.db[id])
  }

  ghost predicate TxsLater(s: State, s': State) {
    forall t <- s.txs :: t in s'.txs && TxLater(s.txs[t], s'.txs[t])
  }

  ghost predicate CallsLater(s: State, s': State) {
    forall c <- s.calls :: c in s'.calls && CallLater(s.calls[c], s'.calls[c])
  }

  ghost predicate Later(s: State, s': State) {
    DbLater(s, s') && TxsLater(s, s') && CallsLater(s, s')
  }

  lemma LaterTransitive(s: State, s1: State, s2: State)
    requires Later(s, s1) && Later(s1, s2)
    ensures Later(s, s2)
  {
    forall id <- s.db ensures id in s2.db && ViewLater(s.db[id], s2.db[id]) {
      assert ViewLater(s.db[id], s1.db[id]) && ViewLater(s1.db[id], s2.db[id]);
    }
    forall t <- s.txs ensures t in s2.txs && TxLater(s.txs[t], s2.txs[t]) {
      assert TxLater(s.txs[t], s1.txs[t]) && TxLater(s1.txs[t], s2.txs[t]);
    }
    forall c <- s.calls ensures c in s2.calls && CallLater(s.calls[c], s2.calls[c]) {
      assert CallLater(s.calls[c], s1.calls[c]) && CallLater(s1.calls[c], s2.calls[c]);
    }
  }

  /** The row a complete transaction commits is no earlier than the one it locked. */
  lemma WorkLater(author: CallId, tx: Tx, base: View)
    requires WorkOk(author, tx, base) && !tx.work.Create?
    requires tx.work.Manage? ==> tx.work.stage == Updated || tx.work.stage == Marked
    ensures ViewLater(base, tx.view)
  {
  }

  lemma CommitLater(s: State, t: TxId)
    requires Inv(s) && DoCommit(s, t).Some?
    ensures DbLater(s, DoCommit(s, t).value)
  {
    var tx := s.txs[t];
    assert TxOk(s, t, tx);
    hide Inv, ViewLater, WorkOk;
    if !tx.work.Create? {
      WorkLater(t.call, tx, At(s, tx.id));
    }
    ViewLaterReflexive(s);
  }

  lemma ViewLaterReflexive(s: State)
    ensures forall id <- s.db :: ViewLater(s.db[id], s.db[id])
  {
  }

  lemma StepDbLater(s: State, e: Event)
    requires Inv(s) && Step(s, e).Some?
    ensures DbLater(s, Step(s, e).value)
  {
    if e.ServerCommit? {
      CommitLater(s, e.t);
    } else if Effect(s, e).None? {
      QuietStep(s, e);
      hide Inv, Step;
      ViewLaterReflexive(s);
    } else {
      hide Inv;
    }
  }

  lemma StepTxsLater(s: State, e: Event)
    requires Step(s, e).Some?
    ensures TxsLater(s, Step(s, e).value)
  {
    if ManagesIslet(e) {
      hide Step;
      ManageTxsLater(s, e);
    } else {
      hide DoLock, DoCheck, DoDrop, DoRebuild, DoRevert, DoUpdate, DoMake, Enter, Finish, Complete, LateMatches;
      hide Failing, Replying, Committing;
    }
  }

  lemma ManageTxsLater(s: State, e: Event)
    requires Step(s, e).Some? && ManagesIslet(e)
    ensures TxsLater(s, Step(s, e).value)
  {
    hide Failing, MarkFailed, FreshRow;
  }

  predicate ManagesIslet(e: Event) {
    || e.LockRow? || e.CheckDependencies? || e.DropSchema? || e.Rebuild? || e.Revert? || e.UpdateRow? || e.MakeIslet?
  }

  lemma ManageCallsLater(s: State, e: Event)
    requires Step(s, e).Some? && ManagesIslet(e)
    ensures CallsLater(s, Step(s, e).value)
  {
    hide Failing, Reach, MarkFailed, FreshRow;
  }

  lemma StepCallsLater(s: State, e: Event)
    requires Step(s, e).Some?
    ensures CallsLater(s, Step(s, e).value)
  {
    if ManagesIslet(e) {
      hide Step;
      ManageCallsLater(s, e);
    } else {
      hide DoLock, DoCheck, DoDrop, DoRebuild, DoRevert, DoUpdate, DoMake, Enter, Finish, Failing, Complete,
        LateMatches;
    }
  }

  lemma {:induction false} RunLater(s: State, es: seq<Event>)
    requires Inv(s) && Steps(s, es).Some?
    ensures Later(s, Steps(s, es).value) && Inv(Steps(s, es).value)
    decreases |es|
  {
    if es == [] {
      ViewLaterReflexive(s);
    } else {
      var s1 := Step(s, es[0]).value;
      StepKeeps(s, es[0]);
      StepDbLater(s, es[0]);
      StepTxsLater(s, es[0]);
      StepCallsLater(s, es[0]);
      RunLater(s1, es[1..]);
      LaterTransitive(s, s1, Steps(s, es).value);
    }
  }

  // ------------------------------------------------------------ generations and states

  /** In any run a committed row only moves forward: by generation, within a generation by
      rank, and a deleted islet never comes back. */
  lemma RowsMoveForward(s: State, es: seq<Event>, id: string)
    requires Inv(s) && Steps(s, es).Some? && id in s.db
    ensures var s' := Steps(s, es).value;
            && id in s'.db
            && (s'.db[id].row.Some? ==>
                  s.db[id].row.Some? && RowLater(s.db[id].row.value, s'.db[id].row.value))
  {
    RunLater(s, es);
  }

  /** A generation of an islet is given at most one token. */
  lemma OneTokenPerGeneration(s: State, es: seq<Event>, id: string)
    requires Inv(s) && Steps(s, es).Some?
    requires var s' := Steps(s, es).value;
             && id in Published(s) && id in Published(s')
             && Published(s)[id].row.generation == Published(s')[id].row.generation
             && Published(s')[id].row.token.Some?
    ensures Published(s)[id].row.token == Published(Steps(s, es).value)[id].row.token
  {
    RunLater(s, es);
  }

  function IdOf(o: Operation): string {
    o.id
  }

  /** The generation an operation works on; an islet that is created has none before. */
  function GenerationOf(o: Operation): nat {
    if o.Created? then 0 else o.generation
  }

  /** One step changes at most the islet its operation names. */
  lemma OneIsletAtATime(s: State, e: Event, id: string)
    requires Inv(s) && Step(s, e).Some?
    requires Effect(s, e).Some? ==> IdOf(Effect(s, e).value) != id
    ensures id in Published(Step(s, e).value) <==> id in Published(s)
    ensures id in Published(s) ==> Published(Step(s, e).value)[id] == Published(s)[id]
  {
    Refines(s, e);
    hide Inv, Step, Published, Effect, Perform;
    if Effect(s, e).Some? {
      PerformsElsewhere(Published(s), Effect(s, e).value, id);
    }
  }

  lemma PerformsElsewhere(r: Registry, o: Operation, id: string)
    requires Perform(r, o).Some? && IdOf(o) != id
    ensures id in Perform(r, o).value <==> id in r
    ensures id in r ==> Perform(r, o).value[id] == r[id]
  {
  }

  /** The generation grows exactly when the workspace is emptied, by one. */
  lemma GenerationGrowsExactlyWhenEmptied(s: State, e: Event, id: string)
    requires Inv(s) && Step(s, e).Some?
    requires id in Published(s) && id in Published(Step(s, e).value)
    ensures var before, after := Published(s)[id], Published(Step(s, e).value)[id];
            && (before.row.generation != after.row.generation <==>
                Effect(s, e).Some? && Effect(s, e).value.Emptied? && Effect(s, e).value.id == id)
            && (before.row.generation != after.row.generation ==>
                after.row.generation == before.row.generation + 1 && after.workspace == [])
  {
    Refines(s, e);
    hide Inv, Step, Published, Effect, Perform;
    if Effect(s, e).Some? {
      PerformsGeneration(Published(s), Effect(s, e).value, id);
    }
  }

  lemma PerformsGeneration(r: Registry, o: Operation, id: string)
    requires Perform(r, o).Some? && id in r && id in Perform(r, o).value
    ensures var before, after := r[id], Perform(r, o).value[id];
            && (before.row.generation != after.row.generation <==> o.Emptied? && o.id == id)
            && (before.row.generation != after.row.generation ==>
                  after.row.generation == before.row.generation + 1 && after.workspace == [])
  {
  }

  /** A cleanup is all or nothing: either the islet is empty at the next generation or gone,
      or its workspace and generation are as they were and the row is failed. */
  lemma CleanupAllOrNothing(s: State, t: TxId)
    requires Inv(s) && DoCommit(s, t).Some? && s.txs[t].work.Manage?
    ensures var id := s.txs[t].id;
            var r, r' := Published(s), Published(DoCommit(s, t).value);
            && id in r
            && if IsMarked(s.txs[t].work) then
                 id in r' && r'[id] == Islet(Row(Failed, r[id].row.generation, None), r[id].workspace)
               else if s.txs[t].work.action.Delete? then id !in r'
               else id in r' && r'[id].row.generation == r[id].row.generation + 1 && r'[id].workspace == []
  {
    CommitRefines(s, t);
    hide Inv, Published;
  }

  /** Initialisation is atomic: an initializing islet is empty, and the only step that makes
      one active within its generation commits every statement of its batch. */
  lemma InitialisationIsAtomic(s: State, e: Event, id: string)
    requires Inv(s) && Step(s, e).Some? && id in Published(s) && Published(s)[id].row.state == Initializing
    ensures Published(s)[id].workspace == []
    ensures var r' := Published(Step(s, e).value);
            id in r' && r'[id].row.generation == Published(s)[id].row.generation && r'[id].row.state == Active ==>
              && Effect(s, e).Some? && Effect(s, e).value.Ran? && Effect(s, e).value.token.Some?
              && var o := Effect(s, e).value;
                 r'[id].workspace == Writes(o.author, o.generation, o.sql)
  {
    assert IsletOk(s.db[id]);
    Refines(s, e);
    assert Published(s)[id].workspace == [];
    hide Inv, Step, Published, Effect, Perform;
    if Effect(s, e).Some? {
      PerformsInitialisation(Published(s), Effect(s, e).value, id);
    }
  }

  lemma PerformsInitialisation(r: Registry, o: Operation, id: string)
    requires Perform(r, o).Some? && id in r && r[id].row.state == Initializing && r[id].workspace == []
    ensures var r' := Perform(r, o).value;
            id in r' && r'[id].row.generation == r[id].row.generation && r'[id].row.state == Active ==>
              o.Ran? && o.token.Some? && r'[id].workspace == Writes(o.author, o.generation, o.sql)
  {
    if o.Ran? {
      assert [] + Writes(o.author, o.generation, o.sql) == Writes(o.author, o.generation, o.sql);
    }
  }

  // ---------------------------------------------------------------- what happens once

  /** An operation that decides the initialisation of a generation: its batch commits, the
      late update records its failure, or a cleanup that went wrong does. */
  predicate Settles(o: Operation, id: string, generation: nat) {
    && o.id == id && GenerationOf(o) == generation
    && ((o.Ran? && o.token.Some?) || o.InitFailed? || (o.CleanupFailed?))
  }

  /** An operation that needs the generation to be initializing still. */
  predicate NeedsInitializing(o: Operation, id: string, generation: nat) {
    && o.id == id && GenerationOf(o) == generation
    && ((o.Ran? && o.token.Some?) || o.InitFailed?)
  }

  /** The registry at two moments of a run, as far as one islet goes. */
  predicate IsletLater(r: Registry, r': Registry, id: string) {
    id in r' ==> id in r && RowLater(r[id].row, r'[id].row)
  }

  lemma PerformedOnce(r: Registry, o: Operation, r': Registry, o': Operation)
    requires Perform(r, o).Some? && IsletLater(Perform(r, o).value, r', o.id) && Perform(r', o').Some?
    requires o'.id == o.id
    ensures !o.Created? && Settles(o, o.id, o.generation) ==> !NeedsInitializing(o', o.id, o.generation)
    ensures Ends(o, o.id, GenerationOf(o)) && !o'.Created? ==> o'.generation > GenerationOf(o)
  {
  }

  lemma PublishedLater(s: State, es: seq<Event>, id: string)
    requires Inv(s) && Steps(s, es).Some? && id in s.db
    ensures IsletLater(Published(s), Published(Steps(s, es).value), id)
    ensures id in Steps(s, es).value.db
  {
    RunLater(s, es);
    assert IsletOk(s.db[id]);
    hide Inv, Steps, RowLater;
  }

  /** Two steps of one run, with anything in between. */
  lemma TwoSteps(s: State, e: Event, es: seq<Event>, e': Event)
    requires Inv(s) && Step(s, e).Some? && Steps(Step(s, e).value, es).Some? && Effect(s, e).Some?
    requires Step(Steps(Step(s, e).value, es).value, e').Some?
    requires Effect(Steps(Step(s, e).value, es).value, e').Some?
    ensures var s' := Steps(Step(s, e).value, es).value;
            var o, o' := Effect(s, e).value, Effect(s', e').value;
            && Perform(Published(s), o).Some? && Perform(Published(s'), o').Some?
            && IsletLater(Perform(Published(s), o).value, Published(s'), o.id)
            && (o'.id == o.id ==> !o'.Created?)
  {
    hide Inv, Step, Steps, Effect, RowLater, Perform, Published, IsletLater;
    var s1 := Step(s, e).value;
    StepKeeps(s, e);
    Refines(s, e);
    RunLater(s1, es);
    EffectIsCommitted(s, e);
    PublishedLater(s1, es, Effect(s, e).value.id);
    Refines(Steps(s1, es).value, e');
    if Effect(Steps(s1, es).value, e').value.Created? {
      CreatedIsNew(Steps(s1, es).value, e');
    }
  }

  lemma CreatedIsNew(s: State, e: Event)
    requires Inv(s) && Step(s, e).Some? && Effect(s, e).Some? && Effect(s, e).value.Created?
    ensures Effect(s, e).value.id !in s.db
  {
    assert TxOk(s, e.t, s.txs[e.t]);
    hide Inv, WorkOk;
  }

  lemma EffectIsCommitted(s: State, e: Event)
    requires Inv(s) && Step(s, e).Some? && Effect(s, e).Some?
    ensures Effect(s, e).value.id in Step(s, e).value.db
  {
    hide Inv;
  }

  /** An initialisation is settled once. So a late update never overwrites an initialisation
      that really committed, whatever its client was told; once it has fired, that generation
      can never be finished; and no generation is finished twice. */
  lemma SettledOnce(s: State, e: Event, es: seq<Event>, e': Event, id: string, generation: nat)
    requires Inv(s) && Step(s, e).Some? && Steps(Step(s, e).value, es).Some?
    requires Effect(s, e).Some? && Settles(Effect(s, e).value, id, generation)
    requires Step(Steps(Step(s, e).value, es).value, e').Some?
    requires Effect(Steps(Step(s, e).value, es).value, e').Some?
    ensures !NeedsInitializing(Effect(Steps(Step(s, e).value, es).value, e').value, id, generation)
  {
    hide Inv, Step, Steps, Effect, Perform;
    TwoSteps(s, e, es, e');
    var s' := Steps(Step(s, e).value, es).value;
    if Effect(s', e').value.id == id {
      PerformedOnce(Published(s), Effect(s, e).value, Published(s'), Effect(s', e').value);
    }
  }

  /** An operation that ends a generation for good. */
  predicate Ends(o: Operation, id: string, generation: nat) {
    o.id == id && (o.Emptied? || o.Removed?) && o.generation == generation
  }

  /** Fencing over runs: once a reset, recovery, reinitialisation or deletion of a generation
      has committed, nothing whose handle carries that generation is ever committed. */
  lemma EndedGenerationIsFenced(s: State, e: Event, es: seq<Event>, e': Event, id: string, generation: nat)
    requires Inv(s) && Step(s, e).Some? && Steps(Step(s, e).value, es).Some?
    requires Effect(s, e).Some? && Ends(Effect(s, e).value, id, generation)
    requires Step(Steps(Step(s, e).value, es).value, e').Some?
    requires Effect(Steps(Step(s, e).value, es).value, e').Some?
    ensures var o := Effect(Steps(Step(s, e).value, es).value, e').value;
            o.id == id ==> !o.Created? && o.generation > generation
  {
    hide Inv, Step, Steps, Effect, Perform;
    TwoSteps(s, e, es, e');
    var s' := Steps(Step(s, e).value, es).value;
    if Effect(s', e').value.id == id {
      PerformedOnce(Published(s), Effect(s, e).value, Published(s'), Effect(s', e').value);
    }
  }
}
