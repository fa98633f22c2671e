/**
 When the table of sessions can exceed its bound, exactly. What counts is the load: the
 sessions in the table and the starts that will still enter one. It can pass 32 only in one
 way, a session that is put back when the load is 32 already.
 */
module SessionCapacity {
  import opened Sessions
  import opened SessionRuns

  function Load(s: State): nat {
    |s.sessions| + |Waiting(s)|
  }

  // --------------------------------------------------------------- a token is in one place

  predicate HoldsToken(proc: Proc, token: string) {
    (proc.Created? && proc.token == token) || (proc.Cleaning? && token in proc.todo)
  }

  ghost predicate Clear(sessions: Table, proc: Proc) {
    forall t :: HoldsToken(proc, t) ==> t !in sessions
  }

  ghost predicate Apart(a: Proc, b: Proc) {
    forall t :: !(HoldsToken(a, t) && HoldsToken(b, t))
  }

  /** What a start or a cleanup holds is not in the table, and nobody else holds it. */
  ghost predicate Placed(s: State) {
    && (forall p <- s.procs :: Clear(s.sessions, s.procs[p]))
    && (forall p, q | p in s.procs && q in s.procs && p != q :: Apart(s.procs[p], s.procs[q]))
  }

  ghost predicate Account(s: State, owner: map<string, string>) {
    OwnerInv(s, owner) && CapacityInv(s) && Placed(s)
  }

  /** A token that is bound to no islet yet is held by nobody. */
  lemma UnboundIsFree(s: State, owner: map<string, string>, token: string)
    requires Binds(s, owner) && token !in owner
    ensures token !in s.sessions
    ensures forall p <- s.procs :: !HoldsToken(s.procs[p], token)
  {
    forall p <- s.procs ensures !HoldsToken(s.procs[p], token) {
      assert ProcBinds(s, owner, s.procs[p]);
    }
  }

  /** A handler moves, and what it holds and what the table holds stay clear of the others. */
  lemma PlacedMove(s: State, s': State, p: Pid)
    requires Placed(s) && s'.procs == s.procs[p := At(s', p)] && p in s'.procs
    requires Clear(s'.sessions, At(s', p))
    requires forall t | t in s'.sessions && t !in s.sessions :: HoldsToken(At(s, p), t)
    requires forall q, t | q in s.procs && q != p && HoldsToken(At(s', p), t) && HoldsToken(s.procs[q], t) ::
               HoldsToken(At(s, p), t)
    ensures Placed(s')
  {
    assert p in s.procs || At(s, p) == Finished;
    forall q <- s'.procs ensures Clear(s'.sessions, s'.procs[q]) {
      if q != p {
        assert Clear(s.sessions, s.procs[q]);
        assert p in s.procs ==> Apart(s.procs[p], s.procs[q]);
      }
    }
    forall q | q in s.procs && q != p ensures Apart(At(s', p), s.procs[q]) && Apart(s.procs[q], At(s', p)) {
      assert p in s.procs ==> Apart(s.procs[p], s.procs[q]);
    }
  }

  lemma MovesOne(s: State, e: Event)
    requires Step(s, e).Some? && !e.Touch?
    ensures var s' := Step(s, e).value; e.p in s'.procs && s'.procs == s.procs[e.p := At(s', e.p)]
  {
    hide Alive, Expired, MAX_SESSIONS;
    match e
    case Reserve(_, _) =>
    case CreateOk(_, _) =>
    case CreateFails(_) =>
    case Insert(_, _) =>
    case Release(_) =>
    case End(_, _, _) =>
    case EndRemoves(_) =>
    case EndFails(_, _) =>
    case Forget(_) =>
    case Take(_, _, _) =>
    case CleanupRemoves(_, _) =>
    case CleanupFails(_, _, _) =>
  }

  lemma PlacedRequest(s: State, e: Event, owner: map<string, string>)
    requires Binds(s, owner) && Placed(s) && Step(s, e).Some? && !e.Touch? && !OfCleanup(e)
    ensures Placed(Step(s, e).value)
  {
    var s' := Step(s, e).value;
    if e.CreateOk? {
      assert ProcBinds(s, owner, At(s, e.p));
      UnboundIsFree(s, owner, At(s, e.p).token);
    }
    assert e.p in s.procs ==> Clear(s.sessions, At(s, e.p));
    MovesOne(s, e);
    hide Binds, Alive, Placed;
    PlacedMove(s, s', e.p);
  }

  lemma PlacedCleanup(s: State, e: Event)
    requires Placed(s) && Step(s, e).Some? && OfCleanup(e)
    ensures Placed(Step(s, e).value)
  {
    var s' := Step(s, e).value;
    assert e.p in s.procs ==> Clear(s.sessions, At(s, e.p));
    if e.Take? {
      TakesFromTable(s, e.p, e.all, e.now);
    }
    MovesOne(s, e);
    hide Alive, Placed, Expired;
    PlacedMove(s, s', e.p);
  }

  lemma PlacedTouch(s: State, e: Event)
    requires Placed(s) && Step(s, e).Some? && e.Touch?
    ensures Placed(Step(s, e).value)
  {
    var s' := Step(s, e).value;
    assert s'.sessions.Keys == s.sessions.Keys && s'.procs == s.procs;
    assert forall p <- s.procs :: Clear(s.sessions, s.procs[p]);
  }

  lemma PlacedStep(s: State, e: Event, owner: map<string, string>)
    requires OwnerInv(s, owner) && Placed(s) && Step(s, e).Some?
    ensures Placed(Step(s, e).value)
  {
    hide Step, Placed, Binds;
    if e.Touch? {
      PlacedTouch(s, e);
    } else if OfCleanup(e) {
      PlacedCleanup(s, e);
    } else {
      PlacedRequest(s, e, owner);
    }
  }

  /** Nobody else holds what a cleanup takes out of the table. */
  lemma TakesFromTable(s: State, p: Pid, all: bool, now: int)
    requires Placed(s)
    ensures forall q, t | q in s.procs && t in Expired(s.sessions, all, now) :: !HoldsToken(s.procs[q], t)
  {
    forall q, t | q in s.procs && t in Expired(s.sessions, all, now) ensures !HoldsToken(s.procs[q], t) {
      assert Clear(s.sessions, s.procs[q]);
    }
  }

  // ------------------------------------------------------------------------- one step

  lemma SessionsStep(s: State, e: Event)
    requires Step(s, e).Some? && !e.Insert? && !e.CleanupFails?
    ensures |Step(s, e).value.sessions| <= |s.sessions|
  {
    hide Alive, Expired;
    if e.Touch? && e.token in s.sessions {
      PutSize(s.sessions, e.token, s.sessions[e.token].(used := e.now));
    } else if e.End? {
      PutSize(s.sessions, e.token, s.sessions[e.token].(used := e.now));
    } else if e.Forget? {
      TakeSize(s.sessions, {At(s, e.p).token});
    } else if e.Take? {
      TakeSize(s.sessions, Expired(s.sessions, e.all, e.now).Keys);
    }
  }

  /** What a step adds to the starts that wait. */
  function Change(s': State, e: Event): int {
    if e.Reserve? && At(s', e.p).Starting? then 1 else if e.CreateFails? || e.Insert? then -1 else 0
  }

  lemma WaitingStep(s: State, e: Event)
    requires Step(s, e).Some?
    ensures var s' := Step(s, e).value;
            |Waiting(s')| == |Waiting(s)| + Change(s', e)
  {
    var s' := Step(s, e).value;
    if e.Touch? {
      assert Waiting(s') == Waiting(s);
    } else {
      MovesOne(s, e);
      WaitingChange(s, e);
      hide Step, Waiting, Reserved;
      Counts(s, s', e.p);
    }
  }

  lemma WaitingChange(s: State, e: Event)
    requires Step(s, e).Some? && !e.Touch?
    ensures var s' := Step(s, e).value;
            WaitingOf(At(s', e.p)) == WaitingOf(At(s, e.p)) + Change(s', e)
  {
    hide Alive, Expired;
  }

  /** What a step does to the load. */
  lemma LoadStep(s: State, e: Event, owner: map<string, string>)
    requires Account(s, owner) && Step(s, e).Some?
    ensures e.CleanupFails? ==> Load(Step(s, e).value) == Load(s) + 1
    ensures !e.CleanupFails? ==> Load(Step(s, e).value) <= Load(s) || Load(Step(s, e).value) <= MAX_SESSIONS
  {
    hide OwnerInv, Waiting, Reserved, Alive, Expired;
    WaitingStep(s, e);
    if e.CleanupFails? {
      assert Clear(s.sessions, At(s, e.p)) && HoldsToken(At(s, e.p), e.token);
      PutSize(s.sessions, e.token, At(s, e.p).todo[e.token]);
    } else if e.Insert? {
      PutSize(s.sessions, At(s, e.p).token, Session(At(s, e.p).id, e.now));
    } else {
      SessionsStep(s, e);
      WaitingAreReserved(s);
    }
  }

  lemma WaitingAreReserved(s: State)
    ensures |Waiting(s)| <= |Reserved(s)|
  {
    Subset(Waiting(s), Reserved(s));
  }

  lemma BoundStep(s: State, e: Event, owner: map<string, string>)
    requires Account(s, owner) && Load(s) <= MAX_SESSIONS && Step(s, e).Some?
    ensures Load(Step(s, e).value) > MAX_SESSIONS <==> e.CleanupFails? && Load(s) == MAX_SESSIONS
  {
    LoadStep(s, e, owner);
  }

  lemma AccountStep(s: State, e: Event, owner: map<string, string>)
    requires Account(s, owner) && Step(s, e).Some?
    ensures Account(Step(s, e).value, Bind(s, e, owner))
  {
    hide OwnerInv, CapacityInv, Placed, Step;
    OwnerStep(s, e, owner);
    CapacityStep(s, e);
    PlacedStep(s, e, owner);
  }

  /** Every run keeps the account. */
  lemma {:induction false} AccountRun(s: State, es: seq<Event>, owner: map<string, string>)
    returns (owner': map<string, string>)
    requires Account(s, owner) && Steps(s, es).Some?
    ensures Account(Steps(s, es).value, owner')
    decreases |es|
  {
    owner' := owner;
    if es != [] {
      AccountStep(s, es[0], owner);
      hide Account, Step;
      owner' := AccountRun(Step(s, es[0]).value, es[1..], Bind(s, es[0], owner));
    }
  }

  // ----------------------------------------------------------------------- what may follow

  predicate NoPutBack(es: seq<Event>) {
    forall e <- es :: !e.CleanupFails?
  }

  /** Without a session that is put back, a load within the bound stays within it. */
  lemma {:induction false} LoadStays(s: State, es: seq<Event>, owner: map<string, string>)
    requires Account(s, owner) && Load(s) <= MAX_SESSIONS && Steps(s, es).Some? && NoPutBack(es)
    ensures |Steps(s, es).value.sessions| <= MAX_SESSIONS
    decreases |es|
  {
    if es != [] {
      BoundStep(s, es[0], owner);
      AccountStep(s, es[0], owner);
      hide Account, Step, Load;
      assert forall e <- es[1..] :: e in es;
      LoadStays(Step(s, es[0]).value, es[1..], Bind(s, es[0], owner));
    }
  }

  lemma {:induction false} Longer(words: set<string>) returns (n: nat)
    ensures forall w <- words :: |w| < n
    decreases words
  {
    n := 0;
    if words != {} {
      var w :| w in words;
      var m := Longer(words - {w});
      n := if |w| < m then m else |w| + 1;
      forall v <- words ensures |v| < n {
        assert v == w || v in words - {w};
      }
    }
  }

  lemma NewWord(words: set<string>) returns (w: string)
    ensures w !in words
  {
    var n := Longer(words);
    w := seq(n, _ => 'x');
  }

  /** A start that waits gets its session into the table. */
  lemma Enters(s: State, p: Pid, owner: map<string, string>) returns (es: seq<Event>)
    requires Account(s, owner) && p in Waiting(s)
    ensures Steps(s, es).Some? && NoPutBack(es)
    ensures var s' := Steps(s, es).value; Load(s') == Load(s) && |Waiting(s')| == |Waiting(s)| - 1
  {
    hide Account, Step, Load, Waiting, Steps;
    WaitsFor(s, p);
    if At(s, p).Created? {
      InsertEnters(s, p, owner);
      OneStep(s, Insert(p, 0));
      es := [Insert(p, 0)];
    } else {
      var id := NewWord(s.drawn);
      var e := CreateOk(p, id);
      CreateWaits(s, p, id);
      AccountStep(s, e, owner);
      InsertEnters(Step(s, e).value, p, Bind(s, e, owner));
      OneStep(s, e);
      OneStep(Step(s, e).value, Insert(p, 0));
      StepsAppend(s, [e], [Insert(p, 0)]);
      es := [e] + [Insert(p, 0)];
    }
  }

  lemma WaitsFor(s: State, p: Pid)
    requires p in Waiting(s)
    ensures At(s, p).Starting? || At(s, p).Created?
  {
  }

  lemma OneStep(s: State, e: Event)
    requires Step(s, e).Some?
    ensures Steps(s, [e]) == Step(s, e)
  {
    hide Step;
    assert [e][1..] == [];
  }

  lemma CreateWaits(s: State, p: Pid, id: string)
    requires At(s, p).Starting? && id !in s.drawn
    ensures Step(s, CreateOk(p, id)).Some?
    ensures var s' := Step(s, CreateOk(p, id)).value;
            At(s', p).Created? && Load(s') == Load(s) && |Waiting(s')| == |Waiting(s)|
  {
    WaitingStep(s, CreateOk(p, id));
  }

  lemma InsertEnters(s: State, p: Pid, owner: map<string, string>)
    requires Account(s, owner) && At(s, p).Created?
    ensures Step(s, Insert(p, 0)).Some?
    ensures var s' := Step(s, Insert(p, 0)).value; Load(s') == Load(s) && |Waiting(s')| == |Waiting(s)| - 1
  {
    var token := At(s, p).token;
    assert Clear(s.sessions, At(s, p)) && HoldsToken(At(s, p), token);
    PutSize(s.sessions, token, Session(At(s, p).id, 0));
    WaitingStep(s, Insert(p, 0));
  }

  lemma {:induction false} StepsAppend(s: State, es: seq<Event>, fs: seq<Event>)
    requires Steps(s, es).Some?
    ensures Steps(s, es + fs) == Steps(Steps(s, es).value, fs)
    decreases |es|
  {
    if es == [] {
      assert es + fs == fs;
    } else {
      assert (es + fs)[0] == es[0] && (es + fs)[1..] == es[1..] + fs;
      StepsAppend(Step(s, es[0]).value, es[1..], fs);
    }
  }

  /** All starts that wait get their sessions into the table. */
  lemma {:induction false} AllEnter(s: State, owner: map<string, string>) returns (es: seq<Event>)
    requires Account(s, owner)
    ensures Steps(s, es).Some? && NoPutBack(es) && |Steps(s, es).value.sessions| == Load(s)
    decreases |Waiting(s)|
  {
    if Waiting(s) == {} {
      es := [];
    } else {
      var p :| p in Waiting(s);
      var first := Enters(s, p, owner);
      var s1 := Steps(s, first).value;
      var owner1 := AccountRun(s, first, owner);
      hide Account, Step, Steps, Waiting;
      var rest := AllEnter(s1, owner1);
      StepsAppend(s, first, rest);
      es := first + rest;
    }
  }

  /** The one way past the bound: after any run with a load within 32, a step takes it past 32
      exactly if a session is put back when the load is 32 already. Put back into a table with
      room, it does no harm. */
  lemma BoundIsPassed(run: seq<Event>, e: Event)
    requires Steps(INITIAL, run).Some? && Step(Steps(INITIAL, run).value, e).Some?
    requires Load(Steps(INITIAL, run).value) <= 32
    ensures var s := Steps(INITIAL, run).value;
            Load(Step(s, e).value) > 32 <==> e.CleanupFails? && Load(s) == 32
  {
    var owner := AccountRun(INITIAL, run, map[]);
    hide Account, Step, Steps, Load;
    BoundStep(Steps(INITIAL, run).value, e, owner);
  }

  /** And what the load means: after any run, the table can come to hold more than 32 sessions
      with none put back from then on, exactly if the load is more than 32 now. */
  lemma OverflowExactly(run: seq<Event>)
    requires Steps(INITIAL, run).Some?
    ensures var s := Steps(INITIAL, run).value;
            (exists es :: Steps(s, es).Some? && NoPutBack(es) && |Steps(s, es).value.sessions| > 32) <==>
            Load(s) > 32
  {
    var s := Steps(INITIAL, run).value;
    var owner := AccountRun(INITIAL, run, map[]);
    hide Account, Step, Steps, Load;
    if Load(s) > MAX_SESSIONS {
      var es := AllEnter(s, owner);
    }
    forall es | Steps(s, es).Some? && NoPutBack(es) && Load(s) <= MAX_SESSIONS
      ensures |Steps(s, es).value.sessions| <= MAX_SESSIONS
    {
      LoadStays(s, es, owner);
    }
  }
}
