/** What a step of the server or of another call can do to a call: end its transactions. */
module ProtocolOthers {
  import opened Wrappers
  import opened Gateway
  import opened Protocol
  import opened ProtocolInvariant

  /** The call whose client takes a step; the server's steps are nobody's. */
  function Client(e: Event): Option<CallId> {
    match e
    case ServerCommit(_) => None
    case ServerAbort(_) => None
    case LateUpdate(_) => None
    case _ => Some(e.c)
  }

  /** What the others and the server may do to a transaction of a call: end it. */
  predicate TxElsewhere(tx: Option<Tx>, tx': Option<Tx>) {
    || tx' == tx
    || (&& tx.Some? && tx'.Some?
        && ((Live(tx.value) && tx'.value == tx.value.(phase := Aborted))
            || (tx.value.phase == CommitSent && tx'.value == tx.value.(phase := Committed))))
  }

  predicate Elsewhere(s: State, s': State, c: CallId) {
    && c in s.calls && c in s'.calls && s'.calls[c] == s.calls[c]
    && TxElsewhere(TxOf(s, c, 0), TxOf(s', c, 0))
    && TxElsewhere(TxOf(s, c, 1), TxOf(s', c, 1))
  }

  lemma ServerStep(s: State, e: Event, c: CallId)
    requires Step(s, e).Some? && c in s.calls && Client(e).None?
    ensures Elsewhere(s, Step(s, e).value, c)
  {
  }

  /** The steps that begin a transaction. */
  predicate IsFirst(e: Event) {
    e.EnterGateway? || e.MakeIslet? || e.LockRow?
  }

  /** The steps that stay inside one. */
  predicate IsInside(e: Event) {
    e.Exec? || e.FinishGateway? || e.CheckDependencies? || e.DropSchema? || e.Rebuild? || e.Revert? || e.UpdateRow?
  }

  lemma FirstStep(s: State, e: Event, c: CallId)
    requires Step(s, e).Some? && c in s.calls && IsFirst(e) && Client(e) != Some(c)
    ensures Elsewhere(s, Step(s, e).value, c)
  {
    hide Enter, FreshRow, Failing;
  }

  lemma InsideStep(s: State, e: Event, c: CallId)
    requires Step(s, e).Some? && c in s.calls && IsInside(e) && Client(e) != Some(c)
    ensures Elsewhere(s, Step(s, e).value, c)
  {
    hide Finish, Reach, MarkFailed, FreshRow, Failing;
  }

  lemma ClientStep(s: State, e: Event, c: CallId)
    requires Step(s, e).Some? && c in s.calls && Client(e).Some? && Client(e) != Some(c)
    ensures Elsewhere(s, Step(s, e).value, c)
  {
    if IsFirst(e) {
      hide Step;
      FirstStep(s, e, c);
    } else if IsInside(e) {
      hide Step;
      InsideStep(s, e, c);
    } else {
      hide DoEnter, DoExec, DoFinish, DoLock, DoCheck, DoDrop, DoRebuild, DoRevert, DoUpdate, DoMake;
      hide Complete, Failing, Replying, Committing, Reopened;
    }
  }

  lemma OthersStep(s: State, e: Event, c: CallId)
    requires Step(s, e).Some? && c in s.calls && Client(e) != Some(c)
    ensures Elsewhere(s, Step(s, e).value, c)
  {
    hide Step;
    if Client(e).None? {
      ServerStep(s, e, c);
    } else {
      ClientStep(s, e, c);
    }
  }
}
